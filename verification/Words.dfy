// Fixed-width words, their representation in memory on either kind of host,
// and the conversions htonl/ntohl between host and network order.
module Words {
  const TWO8 := 0x100
  const TWO16 := 0x1_0000
  const TWO32 := 0x1_0000_0000
  const TWO63 := 0x8000_0000_0000_0000
  const TWO64 := 0x1_0000_0000_0000_0000

  type byte = x: int | 0 <= x < TWO8
  type uint16 = x: int | 0 <= x < TWO16
  type uint32 = x: int | 0 <= x < TWO32
  type uint64 = x: int | 0 <= x < TWO64

  datatype Endian = Little | Big

  // The unsigned increments of C: they wrap.
  function Inc8(x: byte): byte { (x + 1) % TWO8 }

  function Inc16(x: uint16): uint16 { (x + 1) % TWO16 }

  function WordOf(a: byte, b: byte, c: byte, d: byte): uint32 {
    ((a * TWO8 + b) * TWO8 + c) * TWO8 + d
  }

  function ByteSwap(w: uint32): uint32 {
    WordOf(w % TWO8, w / TWO8 % TWO8, w / TWO16 % TWO8, w / 0x100_0000)
  }

  // What a store of a 32-bit word leaves in memory, lowest address first.
  function Store(e: Endian, w: uint32): (bytes: seq<byte>)
    ensures |bytes| == 4
  {
    var a: byte, b: byte, c: byte, d: byte := w / 0x100_0000, w / TWO16 % TWO8, w / TWO8 % TWO8, w % TWO8;
    if e.Big? then [a, b, c, d] else [d, c, b, a]
  }

  function Load(e: Endian, bytes: seq<byte>): uint32
    requires |bytes| == 4
  {
    if e.Big? then WordOf(bytes[0], bytes[1], bytes[2], bytes[3])
    else WordOf(bytes[3], bytes[2], bytes[1], bytes[0])
  }

  function Htonl(e: Endian, w: uint32): uint32 { if e.Big? then w else ByteSwap(w) }

  function Ntohl(e: Endian, w: uint32): uint32 { if e.Big? then w else ByteSwap(w) }

  lemma SplitWord(a: byte, b: byte, c: byte, d: byte)
    ensures var w := WordOf(a, b, c, d);
            w / 0x100_0000 == a && w / TWO16 % TWO8 == b && w / TWO8 % TWO8 == c && w % TWO8 == d
  {
    var w := WordOf(a, b, c, d);
    var ab := a * TWO8 + b;
    var abc := ab * TWO8 + c;
    assert w / TWO8 == abc;
    assert w / TWO16 == ab;
    assert w / 0x100_0000 == a;
  }

  lemma JoinWord(w: uint32)
    ensures WordOf(w / 0x100_0000, w / TWO16 % TWO8, w / TWO8 % TWO8, w % TWO8) == w
  {
    var abc := w / TWO8;
    var ab := w / TWO16;
    assert abc / TWO8 == ab;
    assert ab / TWO8 == w / 0x100_0000;
  }

  // Memory keeps what is stored, on both kinds of host, and every four bytes are some word's image.
  lemma StoreLoad(e: Endian, w: uint32, bytes: seq<byte>)
    requires |bytes| == 4
    ensures Load(e, Store(e, w)) == w
    ensures Store(e, Load(e, bytes)) == bytes
  {
    JoinWord(w);
    if e.Big? {
      SplitWord(bytes[0], bytes[1], bytes[2], bytes[3]);
    } else {
      SplitWord(bytes[3], bytes[2], bytes[1], bytes[0]);
    }
  }

  // A word passed through htonl lies in memory most significant byte first, whatever the host;
  // and ntohl of a word loaded from memory reads those bytes most significant first.
  lemma NetworkOrder(e: Endian, w: uint32, bytes: seq<byte>)
    requires |bytes| == 4
    ensures Store(e, Htonl(e, w)) == Store(Big, w) == [w / 0x100_0000, w / 0x1_0000 % 256, w / 256 % 256, w % 256]
    ensures var (a: int, b: int, c: int, d: int) := (bytes[0], bytes[1], bytes[2], bytes[3]);
            Ntohl(e, Load(e, bytes)) == Load(Big, bytes) == a * 0x100_0000 + b * 0x1_0000 + c * 256 + d
  {
    SplitWord(w % TWO8, w / TWO8 % TWO8, w / TWO16 % TWO8, w / 0x100_0000);
    SplitWord(bytes[3], bytes[2], bytes[1], bytes[0]);
  }

  // ---- Runs of words, as a C struct of 32-bit fields lays them out ----

  function StoreAll(e: Endian, ws: seq<uint32>): (bytes: seq<byte>)
    ensures |bytes| == 4 * |ws|
  {
    if ws == [] then [] else Store(e, ws[0]) + StoreAll(e, ws[1..])
  }

  function LoadAll(e: Endian, bytes: seq<byte>): (ws: seq<uint32>)
    requires |bytes| % 4 == 0
    ensures |bytes| == 4 * |ws|
  {
    if bytes == [] then [] else [Load(e, bytes[..4])] + LoadAll(e, bytes[4..])
  }

  lemma {:induction false} StoreAllLoadAll(e: Endian, ws: seq<uint32>)
    ensures LoadAll(e, StoreAll(e, ws)) == ws
  {
    if ws != [] {
      var bytes := StoreAll(e, ws);
      assert bytes[..4] == Store(e, ws[0]) && bytes[4..] == StoreAll(e, ws[1..]);
      StoreLoad(e, ws[0], bytes[..4]);
      StoreAllLoadAll(e, ws[1..]);
    }
  }

  lemma {:induction false} LoadAllStoreAll(e: Endian, bytes: seq<byte>)
    requires |bytes| % 4 == 0
    ensures StoreAll(e, LoadAll(e, bytes)) == bytes
  {
    if bytes != [] {
      var ws := LoadAll(e, bytes);
      assert ws[1..] == LoadAll(e, bytes[4..]);
      StoreLoad(e, ws[0], bytes[..4]);
      LoadAllStoreAll(e, bytes[4..]);
      assert bytes == bytes[..4] + bytes[4..];
    }
  }

  lemma Slide(bytes: seq<byte>, k: nat)
    requires 0 < k && 4 * k + 4 <= |bytes|
    ensures bytes[4..][4 * (k - 1)..4 * (k - 1) + 4] == bytes[4 * k..4 * k + 4]
  {}

  // The k-th word occupies bytes 4k to 4k+3.
  lemma {:induction false} StoreAllAt(e: Endian, ws: seq<uint32>, k: nat)
    requires k < |ws|
    ensures StoreAll(e, ws)[4 * k..4 * k + 4] == Store(e, ws[k])
  {
    var bytes := StoreAll(e, ws);
    hide Store;
    if k > 0 {
      StoreAllAt(e, ws[1..], k - 1);
      assert bytes[4..] == StoreAll(e, ws[1..]);
      Slide(bytes, k);
    }
  }

  lemma {:induction false} LoadAllAt(e: Endian, bytes: seq<byte>, k: nat)
    requires |bytes| % 4 == 0 && 4 * k + 4 <= |bytes|
    ensures LoadAll(e, bytes)[k] == Load(e, bytes[4 * k..4 * k + 4])
  {
    hide *;
    if k == 0 {
      LoadAllFirst(e, bytes);
    } else {
      LoadAllRest(e, bytes);
      LoadAllAt(e, bytes[4..], k - 1);
      Slide(bytes, k);
    }
  }

  lemma LoadAllFirst(e: Endian, bytes: seq<byte>)
    requires |bytes| % 4 == 0 && bytes != []
    ensures LoadAll(e, bytes)[0] == Load(e, bytes[0..4])
  {
    hide Load;
    assert bytes[0..4] == bytes[..4];
  }

  lemma LoadAllRest(e: Endian, bytes: seq<byte>)
    requires |bytes| % 4 == 0 && bytes != []
    ensures LoadAll(e, bytes)[1..] == LoadAll(e, bytes[4..])
  {
    hide Load;
  }

  // Every word of a struct converted by htonl: what the fields hold in host memory.
  function HtonlAll(e: Endian, ws: seq<uint32>): (r: seq<uint32>)
    ensures |r| == |ws|
    ensures forall k :: 0 <= k < |ws| ==> r[k] == Htonl(e, ws[k])
  {
    seq(|ws|, k requires 0 <= k < |ws| => Htonl(e, ws[k]))
  }

  lemma {:induction false} StoreAllNetworkOrder(e: Endian, ws: seq<uint32>)
    ensures StoreAll(e, HtonlAll(e, ws)) == StoreAll(Big, ws)
  {
    if ws != [] {
      NetworkOrder(e, ws[0], Store(e, ws[0]));
      assert HtonlAll(e, ws)[1..] == HtonlAll(e, ws[1..]);
      StoreAllNetworkOrder(e, ws[1..]);
    }
  }
}
