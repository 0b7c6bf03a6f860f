/**
  The lightctl-udp gateway of src/plugins/gateway/lightctl-udp.ts.

  A luminaire announces itself with a JSON message carrying its id and
  number of light sources, and repeats it as a keepalive. Each new sender
  becomes a client; every frame, each client is sent one byte triple per
  light source (hue, saturation and value scaled to 0-255 and stored as
  Uint8), then the dithering step count and the client's gamma and contrast
  triples: 3·n + 7 bytes for n light sources.

  The socket, the JSON parsing and the timers are not modelled: the parsed
  message is a parameter, the clock is the parameter `now`, and a client's
  pending timeout is the time at which it would fire.
 */
module UdpGateway {
  import opened Base
  import opened Colors
  import opened Luminaires

  type Byte = x: int | 0 <= x < 256

  /** How long a client may stay silent before it is removed, in milliseconds. */
  const ClientTimeout: int := 30000

  /** The dithering step count sent after the pixels. */
  const DitherSteps: Byte := 4

  const DefaultGamma: seq<int> := [220, 250, 180]
  const DefaultContrast: seq<int> := [255, 255, 255]

  /** Storing an integer into a Uint8Array keeps it modulo 256. */
  function ToUint8(n: int): (b: Byte)
    ensures 0 <= n < 256 ==> b == n
    ensures (b - n) % 256 == 0
  {
    n % 256
  }

  /** `Math.floor(x / range * 255)` stored as a byte. */
  function ChannelByte(x: real, range: real): Byte
    requires range > 0.0
  {
    ToUint8(Floor(x / range * 255.0))
  }

  /** The three bytes of one light source: hue, saturation and value. */
  datatype Pixel = Pixel(h: Byte, s: Byte, v: Byte)

  /**
    The bytes of one light source's state. Only an HSV state has the fields
    h, s and v; any other colour reads them as undefined, which a
    Uint8Array stores as 0.
   */
  function PixelOf(c: Color): (p: Pixel)
    ensures !c.Hsv? ==> p == Pixel(0, 0, 0)
  {
    if c.Hsv? then Pixel(ChannelByte(c.h, 360.0), ChannelByte(c.s, 100.0), ChannelByte(c.v, 100.0))
    else Pixel(0, 0, 0)
  }

  /** A hue in [0, 360) fits a byte without wrapping, and the byte decodes to within one step below it. */
  lemma HueByteInRange(h: real)
    requires 0.0 <= h < 360.0
    ensures var b := ChannelByte(h, 360.0);
            b == Floor(h / 360.0 * 255.0) && b < 255
            && b as real * 360.0 / 255.0 <= h < (b + 1) as real * 360.0 / 255.0
  {
    var f := Floor(h / 360.0 * 255.0);
    assert 0 <= f < 255;
  }

  /** A saturation or value in [0, 100] fits a byte without wrapping; 100 is 255. */
  lemma PercentByteInRange(v: real)
    requires 0.0 <= v <= 100.0
    ensures var b := ChannelByte(v, 100.0);
            b == Floor(v / 100.0 * 255.0)
            && (v < 100.0 ==> b as real * 100.0 / 255.0 <= v < (b + 1) as real * 100.0 / 255.0)
            && (v == 100.0 ==> b == 255)
  {
    var f := Floor(v / 100.0 * 255.0);
    assert 0 <= f <= 255;
  }

  /** A value above the range wraps around: 101 % is stored as 1, not as full brightness. */
  lemma OverRangeWraps()
    ensures ChannelByte(101.0, 100.0) == 1
  {
    assert 101.0 / 100.0 * 255.0 == 257.55;
    assert Floor(257.55) == 257;
  }

  /** Pixels laid out three bytes each, in order. */
  function Flatten(ps: seq<Pixel>): (r: seq<Byte>)
    ensures |r| == 3 * |ps|
    ensures forall i :: 0 <= i < |ps| ==> r[3 * i] == ps[i].h && r[3 * i + 1] == ps[i].s && r[3 * i + 2] == ps[i].v
    decreases |ps|
  {
    if ps == [] then []
    else
      var rest := Flatten(ps[1..]);
      var r := [ps[0].h, ps[0].s, ps[0].v] + rest;
      assert forall i :: 1 <= i < |ps| ==> ps[i] == ps[1..][i - 1];
      r
  }

  /** A byte sequence holding every pixel's bytes at its place is their flattening. */
  lemma {:induction false} FlattenUnique(bytes: seq<Byte>, ps: seq<Pixel>)
    requires |bytes| == 3 * |ps|
    requires forall i :: 0 <= i < |ps| ==> bytes[3 * i] == ps[i].h && bytes[3 * i + 1] == ps[i].s && bytes[3 * i + 2] == ps[i].v
    ensures bytes == Flatten(ps)
    decreases |ps|
  {
    if ps != [] {
      var rest := bytes[3..];
      forall i | 0 <= i < |ps[1..]|
        ensures rest[3 * i] == ps[1..][i].h && rest[3 * i + 1] == ps[1..][i].s && rest[3 * i + 2] == ps[1..][i].v
      {
        assert ps[1..][i] == ps[i + 1];
      }
      FlattenUnique(rest, ps[1..]);
      assert bytes == [bytes[0], bytes[1], bytes[2]] + rest;
    }
  }

  /** The pixel of each light source state, in order. */
  function PixelsOf(states: seq<Color>): (ps: seq<Pixel>)
    ensures |ps| == |states|
    ensures forall i :: 0 <= i < |states| ==> ps[i] == PixelOf(states[i])
  {
    seq(|states|, i requires 0 <= i < |states| => PixelOf(states[i]))
  }

  /** Entry j of a configured triple as a byte; a missing entry is undefined and stored as 0. */
  function EntryByte(t: seq<int>, j: nat): Byte {
    if j < |t| then ToUint8(t[j]) else 0
  }

  function TripleBytes(t: seq<int>): (r: seq<Byte>)
    ensures |r| == 3
  {
    [EntryByte(t, 0), EntryByte(t, 1), EntryByte(t, 2)]
  }

  /**
    The frame sent to a client: the pixels, the dithering step count, the
    gamma triple and the contrast triple. A light source without a state
    makes reading its hue throw, and nothing is sent.
   */
  function Frame(states: seq<Color>, gamma: seq<int>, contrast: seq<int>): (r: Result<seq<Byte>>)
    ensures r.Err? <==> exists i :: 0 <= i < |states| && states[i].Undefined?
    ensures r.Ok? ==>
              var n := |states|;
              |r.value| == 3 * n + 7
              && r.value[..3 * n] == Flatten(PixelsOf(states))
              && r.value[3 * n] == DitherSteps
              && (forall j :: 0 <= j < 3 ==> r.value[3 * n + 1 + j] == EntryByte(gamma, j))
              && (forall j :: 0 <= j < 3 ==> r.value[3 * n + 4 + j] == EntryByte(contrast, j))
  {
    if exists i :: 0 <= i < |states| && states[i].Undefined? then
      Err(TypeError("Cannot read properties of undefined (reading 'h')"))
    else
      var pixels := Flatten(PixelsOf(states));
      var r := pixels + [DitherSteps] + TripleBytes(gamma) + TripleBytes(contrast);
      Ok(r)
  }

  /**
    The forEach of send: writes each light source's three bytes at 3·i,
    3·i + 1 and 3·i + 2, and throws at the first light source without a
    state.
   */
  method WritePixels(frame: array<Byte>, states: seq<Color>) returns (ok: bool)
    requires frame.Length == 3 * |states| + 7
    modifies frame
    ensures ok <==> forall k :: 0 <= k < |states| ==> !states[k].Undefined?
    ensures ok ==> frame[..3 * |states|] == Flatten(PixelsOf(states))
    ensures frame[3 * |states|..] == old(frame[3 * |states|..])
  {
    var n := |states|;
    var i := 0;
    while i < n
      invariant 0 <= i <= n
      invariant forall k :: 0 <= k < i ==> !states[k].Undefined?
      invariant forall k :: 0 <= k < i ==>
                  frame[3 * k] == PixelsOf(states)[k].h && frame[3 * k + 1] == PixelsOf(states)[k].s
                  && frame[3 * k + 2] == PixelsOf(states)[k].v
      invariant forall k :: 3 * n <= k < frame.Length ==> frame[k] == old(frame[k])
    {
      if states[i].Undefined? {
        assert frame[3 * n..] == old(frame[3 * n..]);
        return false;
      }
      var p := PixelOf(states[i]);
      frame[3 * i] := p.h;
      frame[3 * i + 1] := p.s;
      frame[3 * i + 2] := p.v;
      i := i + 1;
    }
    FlattenUnique(frame[..3 * n], PixelsOf(states));
    assert frame[3 * n..] == old(frame[3 * n..]);
    return true;
  }

  /** The configuration bytes after the pixels: dithering, then gamma, then contrast. */
  method WriteSettings(frame: array<Byte>, n: nat, gamma: seq<int>, contrast: seq<int>)
    requires frame.Length == 3 * n + 7
    modifies frame
    ensures frame[..3 * n] == old(frame[..3 * n])
    ensures frame[3 * n..] == [DitherSteps] + TripleBytes(gamma) + TripleBytes(contrast)
  {
    frame[3 * n] := DitherSteps;
    frame[3 * n + 1] := EntryByte(gamma, 0);
    frame[3 * n + 2] := EntryByte(gamma, 1);
    frame[3 * n + 3] := EntryByte(gamma, 2);
    frame[3 * n + 4] := EntryByte(contrast, 0);
    frame[3 * n + 5] := EntryByte(contrast, 1);
    frame[3 * n + 6] := EntryByte(contrast, 2);
  }

  /**
    send's byte layout: a new array of 3·n + 7 bytes, filled light source
    by light source and then with the configuration bytes.
   */
  method EncodeFrame(states: seq<Color>, gamma: seq<int>, contrast: seq<int>) returns (r: Result<array<Byte>>)
    ensures Frame(states, gamma, contrast).Err? ==> r == Err(Frame(states, gamma, contrast).error)
    ensures Frame(states, gamma, contrast).Ok? ==> r.Ok? && fresh(r.value) && r.value[..] == Frame(states, gamma, contrast).value
  {
    var n := |states|;
    var frame := new Byte[3 * n + 7](_ => 0);
    var ok := WritePixels(frame, states);
    if !ok {
      return Err(TypeError("Cannot read properties of undefined (reading 'h')"));
    }
    WriteSettings(frame, n, gamma, contrast);
    assert frame[..] == frame[..3 * n] + frame[3 * n..];
    r := Ok(frame);
  }

  /** The light source states a frame is made of. */
  function States(l: Luminaire): (r: seq<Color>)
    ensures |r| == |l.lightSources|
    ensures forall k :: 0 <= k < |r| ==> r[k] == l.lightSources[k].state
  {
    seq(|l.lightSources|, k requires 0 <= k < |l.lightSources| => l.lightSources[k].state)
  }

  datatype Addr = Addr(address: string, port: int)

  /** A registered sender, its settings, and when its silence timeout fires. */
  datatype Client = Client(addr: Addr, id: string, gamma: seq<int>, contrast: seq<int>, luminaireId: string,
                           deadline: int)

  /** The fields of an announcement; a field that is absent is None. */
  datatype Message = Message(id: Option<string>, numLights: Option<nat>)

  datatype Reply = KeptAlive | MissingId | MissingNumLights | Added | RegisterFailed(error: Error)

  /** Position of the first client at the address and port, or -1. */
  function ClientIndex(clients: seq<Client>, addr: Addr): (k: int)
    ensures -1 <= k < |clients|
    ensures k == -1 <==> forall j :: 0 <= j < |clients| ==> clients[j].addr != addr
    ensures k >= 0 ==> clients[k].addr == addr && forall j :: 0 <= j < k ==> clients[j].addr != addr
    decreases |clients|
  {
    if |clients| == 0 then -1
    else if clients[|clients| - 1].addr == addr && ClientIndex(clients[..|clients| - 1], addr) == -1 then
      |clients| - 1
    else ClientIndex(clients[..|clients| - 1], addr)
  }

  /** No two clients share an address and port. */
  predicate DistinctAddrs(clients: seq<Client>) {
    forall i, j :: 0 <= i < j < |clients| ==> clients[i].addr != clients[j].addr
  }

  /** The client list after removeClient: the first client at the address is spliced out. */
  function Without(clients: seq<Client>, addr: Addr): (r: seq<Client>)
    ensures ClientIndex(clients, addr) < 0 ==> r == clients
    ensures ClientIndex(clients, addr) >= 0 ==> |r| == |clients| - 1
    ensures var k := ClientIndex(clients, addr);
            k >= 0 ==> (forall i :: 0 <= i < k ==> r[i] == clients[i])
                       && (forall i :: k <= i < |r| ==> r[i] == clients[i + 1])
  {
    var k := ClientIndex(clients, addr);
    if k < 0 then clients
    else
      var r := clients[..k] + clients[k + 1..];
      assert forall i :: 0 <= i < k ==> r[i] == clients[..k][i];
      assert forall i :: k <= i < |r| ==> r[i] == clients[k + 1..][i - k];
      r
  }

  /** Removing a client keeps every client at another address. */
  lemma WithoutKeepsOthers(clients: seq<Client>, addr: Addr)
    ensures forall c :: c in clients && c.addr != addr ==> c in Without(clients, addr)
  {
    var k := ClientIndex(clients, addr);
    if k >= 0 {
      var r := Without(clients, addr);
      forall c | c in clients && c.addr != addr
        ensures c in r
      {
        var m :| 0 <= m < |clients| && clients[m] == c;
        if m < k {
          assert r[m] == c;
        } else {
          assert m != k;
          assert r[m - 1] == c;
        }
      }
    }
  }

  /** With distinct addresses, removing a client leaves no client at its address, and the rest distinct. */
  lemma WithoutDropsAddress(clients: seq<Client>, addr: Addr)
    requires DistinctAddrs(clients)
    ensures forall c :: c in Without(clients, addr) ==> c.addr != addr
    ensures DistinctAddrs(Without(clients, addr))
  {
    var k := ClientIndex(clients, addr);
    if k >= 0 {
      var r := Without(clients, addr);
      forall m | 0 <= m < |r|
        ensures r[m] == clients[if m < k then m else m + 1]
      {
      }
      forall c | c in r
        ensures c.addr != addr
      {
        var m :| 0 <= m < |r| && r[m] == c;
      }
    }
  }

  /** The client list as the message handler and the timeouts maintain it. */
  class UdpServer {
    var clients: seq<Client>
    var gammaConfig: map<string, seq<int>>
    var contrastConfig: map<string, seq<int>>

    constructor()
      ensures clients == [] && gammaConfig == map[] && contrastConfig == map[]
    {
      clients := [];
      gammaConfig := map[];
      contrastConfig := map[];
    }

    predicate Valid()
      reads this
    {
      DistinctAddrs(clients)
    }

    /** register: the per-luminaire gamma and contrast tables, empty when not configured. */
    method Register(gamma: Option<map<string, seq<int>>>, contrast: Option<map<string, seq<int>>>)
      modifies this
      ensures gammaConfig == gamma.GetOr(map[]) && contrastConfig == contrast.GetOr(map[])
      ensures clients == old(clients)
    {
      gammaConfig := gamma.GetOr(map[]);
      contrastConfig := contrast.GetOr(map[]);
    }

    /** The client a new announcement creates, with the configured triples or the defaults. */
    function NewClient(addr: Addr, id: string, luminaireId: string, now: int): (c: Client)
      reads this
      ensures c.gamma == (if id in gammaConfig then gammaConfig[id] else DefaultGamma)
      ensures c.contrast == (if id in contrastConfig then contrastConfig[id] else DefaultContrast)
      ensures c.addr == addr && c.id == id && c.luminaireId == luminaireId && c.deadline == now + ClientTimeout
    {
      Client(addr, id,
             if id in gammaConfig then gammaConfig[id] else DefaultGamma,
             if id in contrastConfig then contrastConfig[id] else DefaultContrast,
             luminaireId, now + ClientTimeout)
    }

    /**
      The message handler. A message from a known address and port only
      restarts that client's timeout. Otherwise an announcement without an
      id or without a light count is ignored, and a complete one registers
      the luminaire with the engine and appends a client for it (when
      registering throws, nothing is appended).
     */
    method OnMessage(msg: Message, addr: Addr, now: int, registry: LuminaireRegistry) returns (reply: Reply)
      modifies this, registry
      ensures gammaConfig == old(gammaConfig) && contrastConfig == old(contrastConfig)
      ensures old(Valid()) ==> Valid()
      ensures var k := ClientIndex(old(clients), addr);
              k >= 0 ==>
                reply == KeptAlive && clients == old(clients)[k := old(clients)[k].(deadline := now + ClientTimeout)]
                && unchanged(registry)
      ensures ClientIndex(old(clients), addr) < 0 && (msg.id.None? || msg.id.value == "") ==>
                reply == MissingId && clients == old(clients) && unchanged(registry)
      ensures ClientIndex(old(clients), addr) < 0 && msg.id.Some? && msg.id.value != ""
              && (msg.numLights.None? || msg.numLights.value == 0) ==>
                reply == MissingNumLights && clients == old(clients) && unchanged(registry)
      ensures ClientIndex(old(clients), addr) < 0 && msg.id.Some? && msg.id.value != ""
              && msg.numLights.Some? && msg.numLights.value != 0 ==>
                var id := msg.id.value;
                var i := FindLuminaireIndex(old(registry.luminaires), id);
                (reply == Added || reply.RegisterFailed?)
                && (!old(registry.initialized) ==> reply == RegisterFailed(NotInitialized))
                && (old(registry.initialized) && i < 0 ==> reply == RegisterFailed(NotFound(LuminaireKind, id)))
                && (old(registry.initialized) && i >= 0 ==>
                      var l := Refresh(old(registry.luminaires), i, now, registry.table, registry.lib);
                      (l.Err? ==> reply == RegisterFailed(l.error) && registry.luminaires == old(registry.luminaires))
                      && (l.Ok? ==> reply == Added
                                    && registry.luminaires == old(registry.luminaires)[i := l.value.(gateway := "lightctl-udp")]))
      ensures reply.RegisterFailed? ==>
                clients == old(clients) && registry.luminaires == old(registry.luminaires)
                && registry.notifications == old(registry.notifications)
      ensures registry.initialized == old(registry.initialized)
      ensures reply == Added ==>
                msg.id.Some? && |registry.notifications| == |old(registry.notifications)| + 1
                && registry.notifications[|registry.notifications| - 1].Registered?
                && registry.notifications[|registry.notifications| - 1].luminaire.id == msg.id.value
                && clients == old(clients) + [NewClient(addr, msg.id.value, msg.id.value, now)]
    {
      var k := 0;
      while k < |clients|
        invariant 0 <= k <= |clients|
        invariant forall j :: 0 <= j < k ==> clients[j].addr != addr
      {
        if clients[k].addr == addr {
          clients := clients[k := clients[k].(deadline := now + ClientTimeout)];
          return KeptAlive;
        }
        k := k + 1;
      }
      if msg.id.None? || msg.id.value == "" {
        return MissingId;
      }
      if msg.numLights.None? || msg.numLights.value == 0 {
        return MissingNumLights;
      }
      var id := msg.id.value;
      var registered := registry.RegisterLuminaire(id, "lightctl-udp", msg.numLights.value, None, now);
      if registered.Err? {
        return RegisterFailed(registered.error);
      }
      var c := NewClient(addr, id, registered.value.id, now);
      clients := clients + [c];
      reply := Added;
    }

    /**
      removeClient: the first client at the departing client's address and
      port is spliced out; when there is none the list is unchanged.
     */
    method RemoveClient(c: Client)
      modifies this
      ensures clients == Without(old(clients), c.addr)
      ensures gammaConfig == old(gammaConfig) && contrastConfig == old(contrastConfig)
      ensures old(Valid()) ==> Valid() && forall d :: d in clients ==> d.addr != c.addr
    {
      var index := -1;
      var k := 0;
      while k < |clients|
        invariant 0 <= k <= |clients|
        invariant forall j :: 0 <= j < k ==> clients[j].addr != c.addr
      {
        if clients[k].addr == c.addr {
          index := k;
          break;
        }
        k := k + 1;
      }
      assert index == ClientIndex(clients, c.addr);
      ghost var before := clients;
      if index != -1 {
        clients := clients[..index] + clients[index + 1..];
      }
      if DistinctAddrs(before) {
        WithoutDropsAddress(before, c.addr);
      }
    }

    /**
      The silence timeout: a client whose timeout is due is removed, as
      removeClient does when its timer fires.
     */
    method ExpireClient(c: Client, now: int)
      modifies this
      requires c in clients
      ensures now < c.deadline ==> clients == old(clients)
      ensures c.deadline <= now ==> clients == Without(old(clients), c.addr)
      ensures gammaConfig == old(gammaConfig) && contrastConfig == old(contrastConfig)
    {
      if c.deadline <= now {
        RemoveClient(c);
      }
    }

    /**
      send: looks the client's luminaire up in the engine (which recalculates
      it) and encodes its light source states with the client's triples;
      an unknown luminaire throws.
     */
    method Send(client: Client, registry: LuminaireRegistry, now: int) returns (r: Result<array<Byte>>)
      modifies registry
      ensures var i := FindLuminaireIndex(old(registry.luminaires), client.luminaireId);
              (i < 0 ==> r == Err(NotFound(LuminaireKind, client.luminaireId)))
              && (i >= 0 && Refresh(old(registry.luminaires), i, now, registry.table, registry.lib).Err? ==>
                    r == Err(Refresh(old(registry.luminaires), i, now, registry.table, registry.lib).error))
      ensures var i := FindLuminaireIndex(old(registry.luminaires), client.luminaireId);
              i >= 0 && Refresh(old(registry.luminaires), i, now, registry.table, registry.lib).Ok? ==>
                var l := Refresh(old(registry.luminaires), i, now, registry.table, registry.lib).value;
                var f := Frame(States(l), client.gamma, client.contrast);
                (f.Err? ==> r == Err(f.error))
                && (f.Ok? ==> r.Ok? && fresh(r.value) && r.value[..] == f.value)
      ensures registry.initialized == old(registry.initialized) && registry.notifications == old(registry.notifications)
      ensures var i := FindLuminaireIndex(old(registry.luminaires), client.luminaireId);
              var l := if i >= 0 then Refresh(old(registry.luminaires), i, now, registry.table, registry.lib)
                       else Err(NotFound(LuminaireKind, client.luminaireId));
              registry.luminaires == if l.Ok? then old(registry.luminaires)[i := l.value] else old(registry.luminaires)
    {
      var got := registry.GetLuminaire(client.luminaireId, now);
      if got.Err? {
        return Err(got.error);
      }
      r := EncodeFrame(States(got.value), client.gamma, client.contrast);
    }
  }
}
