/**
  The effect pipeline of src/core/effect.ts. An effect is a named transform
  with options; `applyEffectsAll` reduces the luminaire's effect chain over
  its base colours, left to right, each effect receiving the previous one's
  output.

  The source resolves an effect id with a dynamic `require` of the module
  `plugins/effects/<id>`; here an `EffectTable` maps ids to effect functions,
  and an id missing from it is the error that `require` throws.
 */
module Effects {
  import opened Base
  import opened Colors

  /** One entry of the calibrate effect's `luminaires` option. */
  datatype Calibration = Calibration(id: string, cielab: Option<Triple -> Color>)

  /** The option values the reference effects read. */
  datatype OptionValue =
    | Num(x: real)
    | HourTable(table: map<int, real>)
    | Calibrations(list: seq<Calibration>)
    | Text(text: string)

  type Options = map<string, OptionValue>

  datatype Effect = Effect(id: string, options: Option<Options>)

  /** Everything an effect function receives besides the colours. */
  datatype EffectCall = EffectCall(
    options: Options,
    luminaireIndex: int,
    luminaireId: string,
    numLightSources: nat,
    effectIndex: nat,
    numEffects: nat)

  /** An effect implementation; it may throw (avg on no colours, for one). */
  type EffectFn = (seq<Color>, EffectCall) -> Result<seq<Color>>

  type EffectTable = map<string, EffectFn>

  /** A numeric option read as `options[key] || dflt`. */
  function NumOption(options: Options, key: string, dflt: real): (r: real)
    ensures key !in options || !options[key].Num? || options[key].x == 0.0 ==> r == dflt
    ensures key in options && options[key].Num? && options[key].x != 0.0 ==> r == options[key].x
    ensures dflt != 0.0 ==> r != 0.0
  {
    if key in options && options[key].Num? && options[key].x != 0.0 then options[key].x else dflt
  }

  /**
    The arguments of the k-th effect of the chain: its own options (an empty
    map when it has none), the luminaire's registry index and id, the light
    source count, its position k and the chain length.
   */
  function CallFor(effects: seq<Effect>, k: nat, luminaireIndex: int, luminaireId: string, n: nat): EffectCall
    requires k < |effects|
  {
    EffectCall(effects[k].options.GetOr(map[]), luminaireIndex, luminaireId, n, k, |effects|)
  }

  /** One reduction step: look the k-th effect up and run it on `acc`. */
  function ApplyEffect(table: EffectTable, effects: seq<Effect>, k: nat, acc: seq<Color>,
                       luminaireIndex: int, luminaireId: string, n: nat): Result<seq<Color>>
    requires k < |effects|
  {
    var id := effects[k].id;
    if id !in table then Err(UnknownEffect(id))
    else table[id](acc, CallFor(effects, k, luminaireIndex, luminaireId, n))
  }

  /** The reduction over the first k effects of the chain. */
  function ApplyFirst(table: EffectTable, effects: seq<Effect>, k: nat, colors: seq<Color>,
                      luminaireIndex: int, luminaireId: string, n: nat): Result<seq<Color>>
    requires k <= |effects|
    decreases k
  {
    if k == 0 then Ok(colors)
    else
      match ApplyFirst(table, effects, k - 1, colors, luminaireIndex, luminaireId, n)
      case Err(e) => Err(e)
      case Ok(acc) => ApplyEffect(table, effects, k - 1, acc, luminaireIndex, luminaireId, n)
  }

  /**
    An independent reading of `reduce`: start at position k with an
    accumulator and feed each effect's output to the next.
   */
  function ReduceFrom(table: EffectTable, effects: seq<Effect>, k: nat, acc: seq<Color>,
                      luminaireIndex: int, luminaireId: string, n: nat): Result<seq<Color>>
    requires k <= |effects|
    decreases |effects| - k
  {
    if k == |effects| then Ok(acc)
    else
      match ApplyEffect(table, effects, k, acc, luminaireIndex, luminaireId, n)
      case Err(e) => Err(e)
      case Ok(next) => ReduceFrom(table, effects, k + 1, next, luminaireIndex, luminaireId, n)
  }

  /**
    applyEffectsAll. `luminaireIndex` is the luminaire's position in the
    registry (or -1), which the source looks up inside the reducer; the
    registry does not change during the reduction, so every step sees the
    same value.
   */
  function ApplyEffectsAll(table: EffectTable, effects: seq<Effect>, colors: seq<Color>,
                           luminaireIndex: int, luminaireId: string, n: nat): (r: Result<seq<Color>>)
    ensures effects == [] ==> r == Ok(colors)
    ensures r == ReduceFrom(table, effects, 0, colors, luminaireIndex, luminaireId, n)
  {
    FoldIsReduce(table, effects, 0, colors, luminaireIndex, luminaireId, n);
    ApplyFirst(table, effects, |effects|, colors, luminaireIndex, luminaireId, n)
  }

  /** Once a step has thrown, the rest of the chain does not run. */
  lemma {:induction false} ErrorStops(table: EffectTable, effects: seq<Effect>, j: nat, k: nat, colors: seq<Color>,
                                      luminaireIndex: int, luminaireId: string, n: nat)
    requires j <= k <= |effects|
    requires ApplyFirst(table, effects, j, colors, luminaireIndex, luminaireId, n).Err?
    ensures ApplyFirst(table, effects, k, colors, luminaireIndex, luminaireId, n)
         == ApplyFirst(table, effects, j, colors, luminaireIndex, luminaireId, n)
    decreases k - j
  {
    if j < k {
      ErrorStops(table, effects, j, k - 1, colors, luminaireIndex, luminaireId, n);
    }
  }

  /**
    The fold and the left-to-right reading agree: continuing from the result
    of the first k effects gives the result of the whole chain.
   */
  lemma {:induction false} FoldIsReduce(table: EffectTable, effects: seq<Effect>, k: nat, colors: seq<Color>,
                                        luminaireIndex: int, luminaireId: string, n: nat)
    requires k <= |effects|
    ensures var first := ApplyFirst(table, effects, k, colors, luminaireIndex, luminaireId, n);
            var all := ApplyFirst(table, effects, |effects|, colors, luminaireIndex, luminaireId, n);
            (first.Ok? ==> ReduceFrom(table, effects, k, first.value, luminaireIndex, luminaireId, n) == all)
            && (first.Err? ==> all == first)
    decreases |effects| - k
  {
    var first := ApplyFirst(table, effects, k, colors, luminaireIndex, luminaireId, n);
    if first.Err? {
      ErrorStops(table, effects, k, |effects|, colors, luminaireIndex, luminaireId, n);
    } else if k < |effects| {
      FoldIsReduce(table, effects, k + 1, colors, luminaireIndex, luminaireId, n);
    }
  }

  /**
    A one-effect chain calls that effect once, on the base colours, as
    effect 0 of 1, with its options or an empty map; an id the table does not
    know is an error.
   */
  lemma SingleEffect(table: EffectTable, e: Effect, colors: seq<Color>,
                     luminaireIndex: int, luminaireId: string, n: nat)
    ensures e.id !in table ==> ApplyEffectsAll(table, [e], colors, luminaireIndex, luminaireId, n) == Err(UnknownEffect(e.id))
    ensures e.id in table ==> ApplyEffectsAll(table, [e], colors, luminaireIndex, luminaireId, n)
                              == table[e.id](colors, EffectCall(e.options.GetOr(map[]), luminaireIndex, luminaireId, n, 0, 1))
  {
    assert ApplyFirst(table, [e], 0, colors, luminaireIndex, luminaireId, n) == Ok(colors);
  }
}
