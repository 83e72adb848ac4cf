/** The label at the front of every package, and its layout in the label buffer. */
module Labels {
  import opened Words

  // InterfaceDescription.
  datatype Endpoint = Endpoint(peer: u16, port: u16, iface: u16)

  datatype Contents = Contents(messageID: u32, kind: u16, src: Endpoint, dest: Endpoint) {
    function Swapped(): Contents { Contents(messageID, kind, dest, src) }

    function From(peer: u16): Contents { this.(src := src.(peer := peer)) }
  }

  // sizeof(Label::Contents): eighteen bytes of fields, padded to a multiple of four.
  const LABEL_SIZE: nat := 20
  const PEER_PORT_ID_DEFAULT: u16 := 0

  // ---------- the struct in memory, low byte first

  function Put16(n: u16): (s: string)
    ensures |s| == 2
  {
    [(n % 256) as char, (n / 256) as char]
  }

  function Get16(s: string, at: nat): u16
    requires at + 2 <= |s|
  {
    s[at] as int % 256 + 256 * (s[at + 1] as int % 256)
  }

  function PutEndpoint(e: Endpoint): (s: string)
    ensures |s| == 6
  {
    Put16(e.peer) + Put16(e.port) + Put16(e.iface)
  }

  function GetEndpoint(s: string, at: nat): Endpoint
    requires at + 6 <= |s|
  {
    Endpoint(Get16(s, at), Get16(s, at + 2), Get16(s, at + 4))
  }

  function Encode(c: Contents): (s: string)
    ensures |s| == LABEL_SIZE
  {
    Put16(c.messageID % MOD16) + Put16(c.messageID / MOD16) + Put16(c.kind) +
    PutEndpoint(c.src) + PutEndpoint(c.dest) + [0 as char, 0 as char]
  }

  // Reading the struct back; the padding is not looked at.
  function Decode(s: string): Contents
    requires |s| == LABEL_SIZE
  {
    Contents(Get16(s, 0) + MOD16 * Get16(s, 2), Get16(s, 4), GetEndpoint(s, 6), GetEndpoint(s, 12))
  }

  lemma Get16OfPut16(a: string, n: u16, b: string)
    ensures Get16(a + Put16(n) + b, |a|) == n
  {
    var s := a + Put16(n) + b;
    assert s[|a|] == (n % 256) as char && s[|a| + 1] == (n / 256) as char;
  }

  lemma GetOfPutEndpoint(a: string, e: Endpoint, b: string)
    ensures GetEndpoint(a + PutEndpoint(e) + b, |a|) == e
  {
    var s := a + PutEndpoint(e) + b;
    Get16OfPut16(a, e.peer, Put16(e.port) + Put16(e.iface) + b);
    Get16OfPut16(a + Put16(e.peer), e.port, Put16(e.iface) + b);
    Get16OfPut16(a + Put16(e.peer) + Put16(e.port), e.iface, b);
    assert s == a + Put16(e.peer) + (Put16(e.port) + Put16(e.iface) + b);
    assert s == a + Put16(e.peer) + Put16(e.port) + (Put16(e.iface) + b);
    assert s == a + Put16(e.peer) + Put16(e.port) + Put16(e.iface) + b;
  }

  // A label written to a buffer is read back field by field, on every value.
  lemma LabelRoundTrip(c: Contents)
    ensures Decode(Encode(c)) == c
  {
    hide Put16, PutEndpoint;
    var low, high, kind := Put16(c.messageID % MOD16), Put16(c.messageID / MOD16), Put16(c.kind);
    var src, dest, pad := PutEndpoint(c.src), PutEndpoint(c.dest), [0 as char, 0 as char];
    var s := Encode(c);
    assert s == [] + low + (high + kind + src + dest + pad);
    assert s == low + high + (kind + src + dest + pad);
    assert s == (low + high) + kind + (src + dest + pad);
    assert s == (low + high + kind) + src + (dest + pad);
    assert s == (low + high + kind + src) + dest + pad;
    Get16OfPut16([], c.messageID % MOD16, high + kind + src + dest + pad);
    Get16OfPut16(low, c.messageID / MOD16, kind + src + dest + pad);
    Get16OfPut16(low + high, c.kind, src + dest + pad);
    GetOfPutEndpoint(low + high + kind, c.src, dest + pad);
    GetOfPutEndpoint(low + high + kind + src, c.dest, pad);
  }

  // Where each field lies, low byte first: ID at 0, type at 4, source at 6, destination
  // at 12, each endpoint as peer, port and interface.
  lemma LabelLayout(c: Contents)
    ensures var s := Encode(c);
            (s[0] as int + 0x100 * s[1] as int + 0x1_0000 * s[2] as int + 0x100_0000 * s[3] as int == c.messageID) &&
            s[4] as int + 0x100 * s[5] as int == c.kind &&
            s[6] as int + 0x100 * s[7] as int == c.src.peer && s[8] as int + 0x100 * s[9] as int == c.src.port &&
            s[10] as int + 0x100 * s[11] as int == c.src.iface &&
            s[12] as int + 0x100 * s[13] as int == c.dest.peer && s[14] as int + 0x100 * s[15] as int == c.dest.port &&
            s[16] as int + 0x100 * s[17] as int == c.dest.iface
  {
  }

  datatype LabelEndpoint = Src | Dest

  class Label {
    var contents: Contents

    // Only the endpoints are initialised; ID and type are whatever was there.
    constructor ()
      ensures contents.src == contents.dest == Endpoint(0, PEER_PORT_ID_DEFAULT, 0)
    {
      var whatever: Contents := *;
      contents := whatever.(src := Endpoint(0, PEER_PORT_ID_DEFAULT, 0), dest := Endpoint(0, PEER_PORT_ID_DEFAULT, 0));
    }

    // The constructor from contents resets the endpoints it was given.
    constructor FromContents(c: Contents)
      ensures contents == Contents(c.messageID, c.kind, Endpoint(0, PEER_PORT_ID_DEFAULT, 0),
                                   Endpoint(0, PEER_PORT_ID_DEFAULT, 0))
    {
      contents := c;
      new;
      Reset();
    }

    // The implicit copy constructor.
    constructor Copy(c: Contents)
      ensures contents == c
    {
      contents := c;
    }

    method Reset()
      modifies this
      ensures contents == old(contents).(src := Endpoint(0, PEER_PORT_ID_DEFAULT, 0),
                                         dest := Endpoint(0, PEER_PORT_ID_DEFAULT, 0))
    {
      contents := contents.(src := Endpoint(0, PEER_PORT_ID_DEFAULT, 0));
      contents := contents.(dest := Endpoint(0, PEER_PORT_ID_DEFAULT, 0));
    }

    function GetEndpoint(endpoint: LabelEndpoint): Endpoint
      reads this
    {
      if endpoint.Src? then contents.src else contents.dest
    }

    method SetDescription(e: Endpoint, endpoint: LabelEndpoint)
      modifies this
      ensures contents == if endpoint.Src? then old(contents).(src := e) else old(contents).(dest := e)
    {
      if endpoint.Src? {
        contents := contents.(src := e);
      } else {
        contents := contents.(dest := e);
      }
    }

    method SetPeerID(peerID: u16, endpoint: LabelEndpoint)
      modifies this
      ensures contents.messageID == old(contents.messageID) && contents.kind == old(contents.kind)
      ensures endpoint.Src? ==>
                contents.src.peer == peerID && contents.src.port == old(contents.src.port) &&
                contents.src.iface == old(contents.src.iface) && contents.dest == old(contents.dest)
      ensures endpoint.Dest? ==>
                contents.dest.peer == peerID && contents.dest.port == old(contents.dest.port) &&
                contents.dest.iface == old(contents.dest.iface) && contents.src == old(contents.src)
    {
      SetDescription(GetEndpoint(endpoint).(peer := peerID), endpoint);
    }

    method Swap()
      modifies this
      ensures contents.messageID == old(contents.messageID) && contents.kind == old(contents.kind)
      ensures contents.src == old(contents.dest) && contents.dest == old(contents.src)
    {
      var temp := contents.dest;
      contents := contents.(dest := contents.src);
      contents := contents.(src := temp);
    }
  }
}
