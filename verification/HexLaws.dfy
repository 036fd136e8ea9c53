// What is saved as Intel HEX loads back, over mirrored RAM too, and touches nothing else.
module HexLaws {
  import opened Bits
  import opened Board
  import opened IntelHex
  import D = Disassembler
  import A = Assembler
  import L = Listing

  // ---------- texts ----------

  lemma {:induction false} PairsAt(bs: seq<byte>, k: nat)
    ensures |Pairs(bs)| == 2 * |bs|
    ensures k < |bs| ==> Pairs(bs)[2 * k] == D.HexDigit(bs[k] / 16) && Pairs(bs)[2 * k + 1] == D.HexDigit(bs[k] % 16)
  {
    hide D.HexDigit;
    if bs != [] {
      PairsAt(bs[1..], if k > 0 then k - 1 else 0);
    }
  }

  lemma {:induction false} PairsAppend(xs: seq<byte>, ys: seq<byte>)
    ensures Pairs(xs + ys) == Pairs(xs) + Pairs(ys)
  {
    hide Pair;
    if xs == [] {
      assert xs + ys == ys;
    } else {
      assert (xs + ys)[1..] == xs[1..] + ys;
      PairsAppend(xs[1..], ys);
    }
  }

  /** All the bytes of a record, checksum included. */
  function RecordBytes(a: word, data: seq<byte>): seq<byte>
    requires |data| <= RECORD_BYTES
  {
    [|data|, a / 256, a % 256, 0] + data + [Checksum(a, data)]
  }

  /** Below 64 KB a record is a colon and its bytes, two digits each. */
  lemma RecordText(a: word, data: seq<byte>)
    requires |data| <= RECORD_BYTES
    ensures Record(a, data) == ":" + Pairs(RecordBytes(a, data)) + "\n"
  {
    hide D.HexDigit, Pairs, Pair, Checksum;
    var head: seq<byte> := [|data|, a / 256, a % 256, 0];
    PairsAppend(head, data);
    PairsAppend(head + data, [Checksum(a, data)]);
    ZeroPair();
    PairsOfHead(|data|, a / 256, a % 256, 0);
    PairsOfOne(Checksum(a, data));
  }

  lemma PairsOfOne(b: byte)
    ensures Pairs([b]) == Pair(b)
  {
    hide Pair;
    assert [b][1..] == [];
  }

  lemma PairsOfHead(w: byte, x: byte, y: byte, z: byte)
    ensures Pairs([w, x, y, z]) == Pair(w) + Pair(x) + Pair(y) + Pair(z)
  {
    hide Pair;
    var bs: seq<byte> := [w, x, y, z];
    assert bs[1..] == [x, y, z] && bs[1..][1..] == [y, z] && bs[1..][1..][1..] == [z];
    PairsOfOne(z);
    assert Pairs(bs[1..][1..]) == Pair(y) + Pairs(bs[1..][1..][1..]);
    assert Pairs(bs[1..]) == Pair(x) + Pairs(bs[1..][1..]);
  }

  lemma ZeroPair()
    ensures Pair(0) == "00"
  {
  }

  lemma {:induction false} SumAppend(xs: seq<byte>, ys: seq<byte>)
    ensures Sum(xs + ys) == Sum(xs) + Sum(ys)
  {
    if xs == [] {
      assert xs + ys == ys;
    } else {
      assert (xs + ys)[1..] == xs[1..] + ys;
      SumAppend(xs[1..], ys);
    }
  }

  /** The checksum completes the sum of a record to a multiple of 256. */
  lemma RecordFits(a: word, data: seq<byte>)
    ensures (|data| + a / 256 % 256 + a % 256 + Sum(data) + Checksum(a, data)) % 256 == 0
  {
    hide Sum;
  }

  /** Every record's bytes sum to 0 modulo 256. */
  lemma RecordSumsToZero(a: word, data: seq<byte>)
    requires |data| <= RECORD_BYTES
    ensures Sum(RecordBytes(a, data)) % 256 == 0
  {
    hide Sum, Checksum;
    var head: seq<byte> := [|data|, a / 256, a % 256, 0];
    SumAppend(head, data);
    SumAppend(head + data, [Checksum(a, data)]);
    SumOfHead(|data|, a / 256, a % 256);
    SumOfOne(Checksum(a, data));
    RecordFits(a, data);
  }

  lemma SumOfOne(b: byte)
    ensures Sum([b]) == b
  {
    assert [b][1..] == [];
  }

  lemma SumOfHead(n: byte, h: byte, l: byte)
    ensures Sum([n, h, l, 0]) == n + h + l
  {
    SumOfOne(0);
    var bs: seq<byte> := [n, h, l, 0];
    assert bs[1..] == [h, l, 0] && bs[1..][1..] == [l, 0] && bs[1..][1..][1..] == [0];
    assert Sum(bs[1..][1..]) == l + Sum(bs[1..][1..][1..]);
    assert Sum(bs[1..]) == h + Sum(bs[1..][1..]);
  }

  // ---------- one record ----------

  /** A record read into the line buffer: its bytes, two digits each, after the colon. */
  predicate Holds(buf: Buffer, bs: seq<byte>)
  {
    && buf[0] == ':' && 1 + 2 * |bs| < LINE_CHARS
    && forall k :: 0 <= k < |bs| ==> Hexb(buf, 1 + 2 * k) == bs[k]
  }

  /** The line that bytes make. */
  function Text(bs: seq<byte>): string { ":" + Pairs(bs) + "\n" }

  lemma TextIsHeld(buf: Buffer, bs: seq<byte>)
    requires |bs| <= 260
    ensures |Text(bs)| == 2 * |bs| + 2 && Holds(Gets(buf, Text(bs)), bs)
  {
    hide D.HexDigit, Pairs, Hexb;
    PairsAt(bs, 0);
    var b := Gets(buf, Text(bs));
    assert b[0] == ':';
    forall k | 0 <= k < |bs| ensures Hexb(b, 1 + 2 * k) == bs[k] {
      PairsAt(bs, k);
      DigitsRead(b, 1 + 2 * k, bs[k]);
    }
  }

  lemma RecordIsHeld(buf: Buffer, a: word, data: seq<byte>)
    requires |data| <= RECORD_BYTES
    ensures |Record(a, data)| <= 44
    ensures Holds(Gets(buf, Record(a, data)), RecordBytes(a, data))
  {
    hide Record, Pairs, Holds, Gets;
    RecordText(a, data);
    assert |RecordBytes(a, data)| == |data| + 5;
    TextIsHeld(buf, RecordBytes(a, data));
  }

  /** Two digits in the buffer read as the byte they were written for. */
  lemma DigitsRead(b: Buffer, i: nat, v: byte)
    requires i + 1 < LINE_CHARS && b[i] == D.HexDigit(v / 16) && b[i + 1] == D.HexDigit(v % 16)
    ensures Hexb(b, i) == v
  {
    L.DigitReads(v / 16);
    L.DigitReads(v % 16);
    hide D.HexDigit, A.DigitOf;
  }

  lemma EndIsHeld(buf: Buffer)
    ensures |END_RECORD| == 12
    ensures Holds(Gets(buf, END_RECORD), [0, 0, 0, 1, 0xFF])
  {
    var b := Gets(buf, END_RECORD);
    assert b[..11] == ":00000001FF";
  }

  lemma EndStops(w: World, buf: Buffer)
    ensures LoadLine(w, Gets(buf, END_RECORD)) == (w, Done)
  {
    EndIsHeld(buf);
    hide Hexb;
    var b := Gets(buf, END_RECORD);
    hide Gets;
    assert Hexb(b, 1) == 0 && Hexb(b, 3) == 0 && Hexb(b, 5) == 0 && Hexb(b, 7) == 1 && Hexb(b, 9) == 0xFF by {
      var bs: seq<byte> := [0, 0, 0, 1, 0xFF];
      assert bs[0] == 0 && bs[1] == 0 && bs[2] == 0 && bs[3] == 1 && bs[4] == 0xFF;
      assert Hexb(b, 1 + 2 * 0) == bs[0] && Hexb(b, 1 + 2 * 1) == bs[1] && Hexb(b, 1 + 2 * 2) == bs[2];
      assert Hexb(b, 1 + 2 * 3) == bs[3] && Hexb(b, 1 + 2 * 4) == bs[4];
    }
  }

  lemma {:induction false} DataSumIs(buf: Buffer, data: seq<byte>, n: nat)
    requires n <= |data| <= 255
    requires forall k :: 0 <= k < |data| ==> Hexb(buf, 9 + 2 * k) == data[k]
    ensures DataSum(buf, n) == Sum(data[..n])
  {
    hide Hexb;
    if n > 0 {
      DataSumIs(buf, data, n - 1);
      SumAppend(data[..n - 1], [data[n - 1]]);
      SumOfOne(data[n - 1]);
      assert data[..n - 1] + [data[n - 1]] == data[..n];
    }
  }

  /** Reading a record that was written pokes its bytes and goes on. */
  lemma RecordLoads(w: World, buf: Buffer, a: word, data: seq<byte>)
    requires |data| <= RECORD_BYTES
    requires Holds(buf, RecordBytes(a, data))
    ensures forall k :: 0 <= k < |data| ==> Hexb(buf, 9 + 2 * k) == data[k]
    ensures LoadLine(w, buf) == (PokeData(w, buf, a, |data|), Go)
  {
    hide Hexb, PokeData, Sum, DataSum;
    RecordFits(a, data);
    var bs := RecordBytes(a, data);
    var n := |data|;
    assert Hexb(buf, 1 + 2 * 0) == bs[0] == n && Hexb(buf, 1 + 2 * 1) == bs[1] == a / 256;
    assert Hexb(buf, 1 + 2 * 2) == bs[2] == a % 256 && Hexb(buf, 1 + 2 * 3) == bs[3] == 0;
    assert Hexb(buf, 1 + 2 * (n + 4)) == bs[n + 4] == Checksum(a, data);
    forall k | 0 <= k < |data| ensures Hexb(buf, 9 + 2 * k) == data[k] {
      assert Hexb(buf, 1 + 2 * (k + 4)) == bs[k + 4] == data[k];
    }
    DataSumIs(buf, data, n);
    assert data[..n] == data;
    assert Joined(Hexb(buf, 3), Hexb(buf, 5)) == a;
  }

  // ---------- the range ----------

  /** `r` is `now` with the cells of the first `n` addresses as they were in `saved`. */
  ghost predicate Restored(r: World, saved: World, now: World, addr: word, n: nat)
  {
    && r == now.(ram := r.ram)
    && forall i: RamIndex :: r.ram[i] == if Hit(now.ramSize, addr, n, i) then saved.ram[i] else now.ram[i]
  }

  lemma PokeRestores(r: World, saved: World, now: World, addr: word, n: nat)
    requires saved.ramSize == now.ramSize && !now.trial
    requires Restored(r, saved, now, addr, n)
    ensures Restored(Poke(r, Plus16(addr, n), Peek(saved, Plus16(addr, n))), saved, now, addr, n + 1)
  {
    var a := Plus16(addr, n);
    var r' := Poke(r, a, Peek(saved, a));
    hide Plus16;
    forall i: RamIndex
      ensures r'.ram[i] == if Hit(now.ramSize, addr, n + 1, i) then saved.ram[i] else now.ram[i]
    {
      if IsRam(a) && Cell(now.ramSize, a) == i {
        assert Hit(now.ramSize, addr, n + 1, i);
      } else if Hit(now.ramSize, addr, n, i) {
        assert Hit(now.ramSize, addr, n + 1, i);
      } else if Hit(now.ramSize, addr, n + 1, i) {
        assert false;
      }
    }
  }

  lemma {:induction false} DataRestores(r: World, saved: World, now: World, buf: Buffer, addr: word, i: nat, n: nat)
    requires saved.ramSize == now.ramSize && !now.trial && n <= RECORD_BYTES
    requires Restored(r, saved, now, addr, i)
    requires forall k :: 0 <= k < n ==> Hexb(buf, 9 + 2 * k) == Peek(saved, Plus16(addr, i + k))
    ensures Restored(PokeData(r, buf, addr + i, n), saved, now, addr, i + n)
  {
    hide Hexb, Restored, Peek, Poke;
    if n > 0 {
      DataRestores(r, saved, now, buf, addr, i, n - 1);
      PokeRestores(PokeData(r, buf, addr + i, n - 1), saved, now, addr, i + n - 1);
      assert Hexb(buf, 9 + 2 * (n - 1)) == Peek(saved, Plus16(addr, i + (n - 1)));
    }
  }

  // ---------- records that begin at or above 64 KB ----------

  predicate LongText(s: string, most: nat)
  {
    && 5 <= |s| <= most && A.DigitOf(s[0]) > 0
    && forall j :: 0 <= j < |s| ==> A.DigitOf(s[j]) < 16
  }

  /** The bound on `a`, sixteen times as large for every further digit. */
  function Under(k: nat): nat { if k == 0 then 0x1_0000 else 16 * Under(k - 1) }

  lemma {:induction false} LongNumber(a: nat, k: nat)
    requires 0x1_0000 <= a < Under(k)
    ensures LongText(Hex4(a), 4 + k)
    decreases k
  {
    hide A.DigitOf, D.HexDigit;
    L.DigitReads(a % 16);
    if a / 16 < 0x1_0000 {
      FourDigits(a / 16);
    } else {
      LongNumber(a / 16, k - 1);
    }
  }

  lemma FourDigits(b: word)
    requires b >= 0x1000
    ensures |Hex4(b)| == 4 && A.DigitOf(Hex4(b)[0]) > 0
    ensures forall j :: 0 <= j < 4 ==> A.DigitOf(Hex4(b)[j]) < 16
  {
    L.DigitReads(b / 256 / 16);
    L.DigitReads(b / 256 % 16);
    L.DigitReads(b % 256 / 16);
    L.DigitReads(b % 256 % 16);
    hide A.DigitOf, D.HexDigit;
    assert Hex4(b) == Pair(b / 256) + Pair(b % 256);
  }

  lemma {:induction false} NothingPoked(w: World, buf: Buffer, addr: nat, n: nat)
    requires RAM_TOP <= addr < 0x1_0000 && n <= RECORD_BYTES
    ensures PokeData(w, buf, addr, n) == w
  {
    hide Hexb;
    if n > 0 {
      NothingPoked(w, buf, addr, n - 1);
    }
  }

  /** Five digits or more push the type out of its place: the record is read at an address above RAM. */
  lemma LateRecord(w: World, buf: Buffer, a: nat, data: seq<byte>)
    requires 0x1_0000 <= a < U32 && |data| <= RECORD_BYTES
    ensures |Record(a, data)| <= 48
    ensures LoadLine(w, Gets(buf, Record(a, data))).0 == w
  {
    LateText(buf, a, data);
    hide Record, Gets, Hexb, PokeData, DataSum;
    var b := Gets(buf, Record(a, data));
    NothingPoked(w, b, Joined(Hexb(b, 3), Hexb(b, 5)), |data|);
  }

  lemma LateText(buf: Buffer, a: nat, data: seq<byte>)
    requires 0x1_0000 <= a < U32 && |data| <= RECORD_BYTES
    ensures |Record(a, data)| <= 48
    ensures var b := Gets(buf, Record(a, data));
            b[0] == ':' && Hexb(b, 1) == |data| && 16 <= Hexb(b, 3) < 256 && 0 <= Hexb(b, 5) < 256
  {
    hide Under, Pairs, D.HexDigit, A.DigitOf, Hex4, Checksum, LongText, Hexb, Gets;
    UnderFour();
    LongNumber(a, 4);
    PairsAt(data, 0);
    var digits := Hex4(a);
    LongIsLong(digits, 8);
    var tail := "00" + Pairs(data) + Pair(Checksum(a, data)) + "\n";
    assert Record(a, data) == ":" + Pair(|data|) + digits + tail;
    hide Record;
    HeadOfText(buf, Pair(|data|), digits, tail);
    var b := Gets(buf, Record(a, data));
    DigitsRead(b, 1, |data|);
    LongDigits(b, digits);
  }

  lemma HeadOfText(buf: Buffer, p: string, digits: string, tail: string)
    requires |p| == 2 && |digits| >= 5 && |":" + p + digits + tail| < LINE_CHARS
    ensures var b := Gets(buf, ":" + p + digits + tail);
            && b[0] == ':' && b[1] == p[0] && b[2] == p[1]
            && b[3] == digits[0] && b[4] == digits[1] && b[5] == digits[2] && b[6] == digits[3]
  {
  }

  lemma UnderFour()
    ensures Under(4) == U32
  {
    assert Under(2) == 256 * Under(0) && Under(4) == 256 * Under(2);
  }

  lemma LongIsLong(s: string, most: nat)
    requires LongText(s, most)
    ensures 5 <= |s| <= most
  {
  }

  lemma LongDigits(b: Buffer, digits: string)
    requires LongText(digits, 8) && |digits| >= 5
    requires b[3] == digits[0] && b[4] == digits[1] && b[5] == digits[2] && b[6] == digits[3]
    ensures 16 <= Hexb(b, 3) < 256 && 0 <= Hexb(b, 5) < 256
  {
    hide A.DigitOf;
  }

  /** How many of the bytes lie in records that begin below 64 KB. */
  function Kept(addr: word, len: nat): nat
  {
    if len == 0 || addr + (len - 1) / 16 * 16 < 0x1_0000 then len else (0x1_0000 - addr + 15) / 16 * 16
  }

  lemma {:induction false} LateRecords(saved: World, w: World, buf: Buffer, addr: word, len: nat, i: nat)
    requires 0x1_0000 <= addr + i && addr + len < U32
    ensures Lines(Records(saved, addr, len, i) + [END_RECORD])
    ensures Load(w, buf, Records(saved, addr, len, i) + [END_RECORD]).0 == w
    decreases len - i
  {
    hide Record, LoadLine, Bytes;
    var all := Records(saved, addr, len, i) + [END_RECORD];
    if i >= len {
      EndStops(w, buf);
      assert all == [END_RECORD];
    } else {
      var n := if len - i < RECORD_BYTES then len - i else RECORD_BYTES;
      var text := Record(addr + i, Bytes(saved, addr + i, n));
      LateRecord(w, buf, addr + i, Bytes(saved, addr + i, n));
      LateRecords(saved, w, Gets(buf, text), addr, len, i + RECORD_BYTES);
      hide Gets;
      assert all[0] == text && all[1..] == Records(saved, addr, len, i + RECORD_BYTES) + [END_RECORD];
    }
  }

  // ---------- the whole file ----------

  lemma {:induction false} RecordsRestore(
    saved: World, now: World, r: World, buf: Buffer, addr: word, len: nat, i: nat)
    requires saved.ramSize == now.ramSize && !now.trial && addr + len < U32
    requires i % 16 == 0 && (if i < len then i <= Kept(addr, len) else Kept(addr, len) == len)
    requires Restored(r, saved, now, addr, if i < len then i else len)
    ensures Lines(Records(saved, addr, len, i) + [END_RECORD])
    ensures Restored(Load(r, buf, Records(saved, addr, len, i) + [END_RECORD]).0, saved, now, addr, Kept(addr, len))
    ensures Kept(addr, len) == len ==> Load(r, buf, Records(saved, addr, len, i) + [END_RECORD]).1
    decreases len - i
  {
    hide Record, LoadLine, Bytes, Restored, Gets, Hexb, PokeData, RecordBytes, Peek, Plus16, Kept;
    var all := Records(saved, addr, len, i) + [END_RECORD];
    if i >= len {
      EndStops(r, buf);
      EndIsHeld(buf);
      assert all == [END_RECORD];
    } else if addr + i >= 0x1_0000 {
      LateIsKept(addr, len, i);
      LateRecords(saved, r, buf, addr, len, i);
    } else {
      var n := if len - i < RECORD_BYTES then len - i else RECORD_BYTES;
      var data := Bytes(saved, addr + i, n);
      var text := Record(addr + i, data);
      RecordIsHeld(buf, addr + i, data);
      RecordLoads(r, Gets(buf, text), addr + i, data);
      forall k | 0 <= k < n ensures Hexb(Gets(buf, text), 9 + 2 * k) == Peek(saved, Plus16(addr, i + k)) {
        ByteAt(saved, addr, i, n, k);
        assert Hexb(Gets(buf, text), 9 + 2 * k) == data[k];
      }
      DataRestores(r, saved, now, Gets(buf, text), addr, i, n);
      NextRecord(addr, len, i, n);
      var rest := PokeData(r, Gets(buf, text), addr + i, n);
      RecordsRestore(saved, now, rest, Gets(buf, text), addr, len, i + RECORD_BYTES);
      assert all[0] == text && all[1..] == Records(saved, addr, len, i + RECORD_BYTES) + [END_RECORD];
    }
  }

  lemma LateIsKept(addr: word, len: nat, i: nat)
    requires i % 16 == 0 && i < len && i <= Kept(addr, len) && addr + i >= 0x1_0000
    ensures Kept(addr, len) == i && i != len
  {
  }

  lemma NextRecord(addr: word, len: nat, i: nat, n: nat)
    requires i % 16 == 0 && i < len && addr + i < 0x1_0000
    requires n == if len - i < RECORD_BYTES then len - i else RECORD_BYTES
    ensures (i + 16) % 16 == 0 && i + n == if i + 16 < len then i + 16 else len
    ensures if i + 16 < len then i + 16 <= Kept(addr, len) else Kept(addr, len) == len
  {
  }

  lemma ByteAt(w: World, addr: word, i: nat, n: nat, k: nat)
    requires addr + i < 0x1_0000 && k < n
    ensures Bytes(w, addr + i, n)[k] == Peek(w, Plus16(addr, i + k))
  {
    hide Peek;
  }

  /** For every range: what loading a saved range leaves in memory. */
  lemma SaveThenLoad(saved: World, now: World, buf: Buffer, addr: word, len: nat)
    requires saved.ramSize == now.ramSize && !now.trial && addr + len < U32
    ensures Lines(Save(saved, addr, len))
    ensures Restored(Load(now, buf, Save(saved, addr, len)).0, saved, now, addr, Kept(addr, len))
    ensures Kept(addr, len) == len ==> Load(now, buf, Save(saved, addr, len)).1
  {
    RecordsRestore(saved, now, now, buf, addr, len, 0);
  }

  /** Up to 64 KB, every address of the range reads as it did and no other RAM cell changes. */
  lemma RoundTrip(saved: World, now: World, buf: Buffer, addr: word, len: nat)
    requires saved.ramSize == now.ramSize && saved.rom == now.rom && !now.trial && addr + len <= 0x1_0000
    ensures Lines(Save(saved, addr, len))
    ensures var (r, ok) := Load(now, buf, Save(saved, addr, len));
            && ok
            && r == now.(ram := r.ram)
            && (forall a: word :: addr <= a < addr + len ==> Peek(r, a) == Peek(saved, a))
            && (forall i: RamIndex :: !Hit(now.ramSize, addr, len, i) ==> r.ram[i] == now.ram[i])
  {
    SaveThenLoad(saved, now, buf, addr, len);
    hide Load, Save, Peek, Hit;
    var r := Load(now, buf, Save(saved, addr, len)).0;
    assert Kept(addr, len) == len;
    forall a: word | addr <= a < addr + len ensures Peek(r, a) == Peek(saved, a) {
      PeekRestored(r, saved, now, addr, len, a);
    }
  }

  lemma PeekRestored(r: World, saved: World, now: World, addr: word, n: nat, a: word)
    requires saved.ramSize == now.ramSize && saved.rom == now.rom
    requires Restored(r, saved, now, addr, n)
    requires addr <= a < addr + n
    ensures Peek(r, a) == Peek(saved, a)
  {
    if IsRam(a) {
      assert Plus16(addr, a - addr) == a;
      assert Hit(now.ramSize, addr, n, Cell(now.ramSize, a));
    }
  }

  // ---------- what is refused ----------

  /** Bytes stored one after another, from an address on. */
  function Stored(w: World, a: word, data: seq<byte>): World
  {
    if data == [] then w
    else Poke(Stored(w, a, data[..|data| - 1]), Plus16(a, |data| - 1), data[|data| - 1])
  }

  lemma {:induction false} PokesAreStored(w: World, buf: Buffer, a: word, data: seq<byte>, n: nat)
    requires n <= |data| <= 255
    requires forall k :: 0 <= k < |data| ==> Hexb(buf, 9 + 2 * k) == data[k]
    ensures PokeData(w, buf, a, n) == Stored(w, a, data[..n])
  {
    hide Hexb, Poke;
    if n > 0 {
      PokesAreStored(w, buf, a, data, n - 1);
      assert data[..n][..n - 1] == data[..n - 1];
    }
  }

  /** A record as its bytes: length, address, type, data and checksum. */
  predicate WellSized(bs: seq<byte>) { |bs| >= 5 && |bs| == bs[0] as int + 5 }

  /** Where the four parts of a held record are read. */
  lemma HeldParts(buf: Buffer, bs: seq<byte>)
    requires WellSized(bs) && Holds(buf, bs)
    ensures buf[0] == ':' && Hexb(buf, 1) == bs[0] && Hexb(buf, 3) == bs[1] && Hexb(buf, 5) == bs[2]
    ensures Hexb(buf, 7) == bs[3] && Hexb(buf, 9 + 2 * bs[0] as int) == bs[|bs| - 1]
    ensures forall k :: 0 <= k < bs[0] as int ==> Hexb(buf, 9 + 2 * k) == bs[4..|bs| - 1][k]
  {
    hide Hexb;
    assert Hexb(buf, 1 + 2 * 0) == bs[0] && Hexb(buf, 1 + 2 * 1) == bs[1];
    assert Hexb(buf, 1 + 2 * 2) == bs[2] && Hexb(buf, 1 + 2 * 3) == bs[3];
    assert Hexb(buf, 1 + 2 * (|bs| - 1)) == bs[|bs| - 1];
    forall k | 0 <= k < bs[0] as int ensures Hexb(buf, 9 + 2 * k) == bs[4..|bs| - 1][k] {
      assert Hexb(buf, 1 + 2 * (k + 4)) == bs[k + 4];
    }
  }

  lemma SumOfTwo(x: byte, rest: seq<byte>)
    ensures Sum([x] + rest) == x as int + Sum(rest)
  {
    assert ([x] + rest)[1..] == rest;
  }

  lemma SumOfParts(bs: seq<byte>)
    requires WellSized(bs)
    ensures Sum(bs) == bs[0] as int + bs[1] as int + bs[2] as int + bs[3] as int
                       + Sum(bs[4..|bs| - 1]) + bs[|bs| - 1] as int
  {
    hide Sum;
    var data, last := bs[4..|bs| - 1], [bs[|bs| - 1]];
    SumAppend(data, last);
    SumOfOne(bs[|bs| - 1]);
    SumOfTwo(bs[3], data + last);
    SumOfTwo(bs[2], [bs[3]] + (data + last));
    SumOfTwo(bs[1], [bs[2]] + ([bs[3]] + (data + last)));
    SumOfTwo(bs[0], [bs[1]] + ([bs[2]] + ([bs[3]] + (data + last))));
    assert bs == [bs[0]] + ([bs[1]] + ([bs[2]] + ([bs[3]] + (data + last))));
  }

  /**
   * The verdict on any record that is held whole: bad exactly if its bytes do not sum to 0 modulo 256, and
   * otherwise the end exactly if its type is 1. Data is stored from its address on, bad or not, and
   * nothing for any other type.
   */
  lemma VerdictOnRecord(w: World, buf: Buffer, bs: seq<byte>)
    requires WellSized(bs) && Holds(buf, bs)
    ensures var (r, v) := LoadLine(w, buf);
            && (v == Bad <==> Sum(bs) % 256 != 0)
            && (v == Done <==> Sum(bs) % 256 == 0 && bs[3] == 1)
            && r == (if bs[3] == 0 then Stored(w, 256 * bs[1] as int + bs[2] as int, bs[4..|bs| - 1]) else w)
  {
    hide Hexb, PokeData, Sum, DataSum, Stored, Holds;
    var n: nat := bs[0];
    var data := bs[4..|bs| - 1];
    HeldParts(buf, bs);
    SumOfParts(bs);
    DataSumIs(buf, data, n);
    PokesAreStored(w, buf, 256 * bs[1] as int + bs[2] as int, data, n);
    assert data[..n] == data;
  }

  lemma {:induction false} SumChanges(bs: seq<byte>, k: nat, b: byte)
    requires k < |bs|
    ensures Sum(bs[k := b]) == Sum(bs) - bs[k] as int + b as int
  {
    if k > 0 {
      SumChanges(bs[1..], k - 1, b);
      assert bs[k := b][1..] == bs[1..][k - 1 := b];
    } else {
      assert bs[0 := b][1..] == bs[1..];
    }
  }

  /** One wrong byte after the length makes a record bad. */
  lemma OneByteChanged(w: World, buf: Buffer, bs: seq<byte>, k: nat, b: byte)
    requires WellSized(bs) && Sum(bs) % 256 == 0 && 0 < k < |bs| && b != bs[k]
    requires Holds(buf, bs[k := b])
    ensures LoadLine(w, buf).1 == Bad
  {
    hide Sum, Holds, LoadLine;
    SumChanges(bs, k, b);
    VerdictOnRecord(w, buf, bs[k := b]);
  }

  /** The bytes of the record that a saved range has at offset `at`. */
  function RecordAt(w: World, addr: word, len: nat, at: nat): seq<byte>
    requires at < len && addr + len <= 0x1_0000
  {
    RecordBytes(addr + at, Piece(w, addr, len, at))
  }

  function Piece(w: World, addr: word, len: nat, at: nat): (bs: seq<byte>)
    requires at < len
    ensures |bs| <= RECORD_BYTES
  {
    Bytes(w, addr + at, if len - at < RECORD_BYTES then len - at else RECORD_BYTES)
  }

  lemma RecordIsSized(a: word, data: seq<byte>)
    requires |data| <= RECORD_BYTES
    ensures |RecordBytes(a, data)| == |data| + 5 && WellSized(RecordBytes(a, data))
    ensures Sum(RecordBytes(a, data)) % 256 == 0
  {
    hide Sum, Checksum;
    RecordSumsToZero(a, data);
  }

  /** The first `j` records, a line made of other bytes, and whatever follows. */
  function Spoiled(records: seq<string>, j: nat, bs: seq<byte>, rest: seq<string>): seq<string>
    requires j <= |records|
  {
    records[..j] + [Text(bs)] + rest
  }

  /** Records in front of a damaged one are loaded, and the file is refused whatever follows. */
  lemma {:induction false} DamageIsFound(
    saved: World, now: World, buf: Buffer, addr: word, len: nat, i: nat, j: nat, k: nat, b: byte, rest: seq<string>)
    requires addr + len <= 0x1_0000 && i + 16 * j < len && Lines(rest)
    requires 0 < k < |RecordAt(saved, addr, len, i + 16 * j)| && b != RecordAt(saved, addr, len, i + 16 * j)[k]
    ensures j < |Records(saved, addr, len, i)|
    ensures var file := Spoiled(Records(saved, addr, len, i), j, RecordAt(saved, addr, len, i + 16 * j)[k := b], rest);
            Lines(file) && !Load(now, buf, file).1
    decreases j
  {
    hide Record, LoadLine, Gets, Hexb, PokeData, RecordBytes, Holds, Text, Piece, Bytes;
    var at := i + 16 * j;
    var bs := RecordAt(saved, addr, len, at);
    var bad := Text(bs[k := b]);
    RecordIsSized(addr + at, Piece(saved, addr, len, at));
    TextIsHeld(buf, bs[k := b]);
    FirstRecord(saved, addr, len, i);
    var records := Records(saved, addr, len, i);
    if j == 0 {
      var file := Spoiled(records, 0, bs[k := b], rest);
      assert file == [bad] + rest;
      OneByteChanged(now, Gets(buf, bad), bs, k, b);
      assert file[0] == bad && file[1..] == rest;
    } else {
      var data := Piece(saved, addr, len, i);
      var text := Record(addr + i, data);
      RecordIsHeld(buf, addr + i, data);
      RecordLoads(now, Gets(buf, text), addr + i, data);
      var next := PokeData(now, Gets(buf, text), addr + i, |data|);
      assert i + 16 + 16 * (j - 1) == at;
      DamageIsFound(saved, next, Gets(buf, text), addr, len, i + 16, j - 1, k, b, rest);
      hide Records;
      var file := Spoiled(records, j, bs[k := b], rest);
      var tail := Spoiled(records[1..], j - 1, bs[k := b], rest);
      assert file == [text] + tail;
      assert file[0] == text && file[1..] == tail;
    }
  }

  lemma FirstRecord(w: World, addr: word, len: nat, i: nat)
    requires i < len && addr + len <= 0x1_0000
    ensures Records(w, addr, len, i) == [Record(addr + i, Piece(w, addr, len, i))] + Records(w, addr, len, i + 16)
    ensures Records(w, addr, len, i)[1..] == Records(w, addr, len, i + 16)
  {
    hide Record, Bytes;
  }

  /** So a saved file in which one byte of one record, its length aside, is changed is refused. */
  lemma DamagedFileIsRefused(saved: World, now: World, buf: Buffer, addr: word, len: nat, j: nat, k: nat, b: byte)
    requires addr + len <= 0x1_0000 && 16 * j < len
    requires 0 < k < |RecordAt(saved, addr, len, 16 * j)| && b != RecordAt(saved, addr, len, 16 * j)[k]
    ensures j < |Save(saved, addr, len)|
    ensures var file := Save(saved, addr, len)[j := Text(RecordAt(saved, addr, len, 16 * j)[k := b])];
            Lines(file) && !Load(now, buf, file).1
  {
    hide RecordAt, Load, Text, Records;
    var all := Records(saved, addr, len, 0);
    var bs := RecordAt(saved, addr, len, 16 * j);
    AllLines(saved, addr, len, 0);
    DamageIsFound(saved, now, buf, addr, len, 0, j, k, b, []);
    var rest := all[j + 1..] + [END_RECORD];
    assert Lines(rest);
    DamageIsFound(saved, now, buf, addr, len, 0, j, k, b, rest);
    assert Save(saved, addr, len)[j := Text(bs[k := b])] == Spoiled(all, j, bs[k := b], rest);
  }

  lemma {:induction false} AllLines(w: World, addr: word, len: nat, i: nat)
    requires addr + len <= 0x1_0000
    ensures Lines(Records(w, addr, len, i))
    decreases len - i
  {
    hide Record, Bytes;
    if i < len {
      var n := if len - i < RECORD_BYTES then len - i else RECORD_BYTES;
      AllLines(w, addr, len, i + RECORD_BYTES);
      RecordIsHeld(seq(LINE_CHARS, _ => 'x'), addr + i, Bytes(w, addr + i, n));
    }
  }

  /** What the buffer holds after a line is read: the line, the end of the string, and the rest as before. */
  lemma BufferHolds(buf: Buffer, line: string, k: nat)
    requires |line| < LINE_CHARS && k < LINE_CHARS
    ensures Gets(buf, line)[k] == if k < |line| then line[k] else if k == |line| then '\0' else buf[k]
  {
  }

  /** A line that is not a record is skipped, and one whose length is unreadable is refused. */
  lemma OtherLines(w: World, buf: Buffer)
    ensures buf[0] != ':' ==> LoadLine(w, buf) == (w, Go)
    ensures buf[0] == ':' && (A.DigitOf(buf[1]) >= 16 || A.DigitOf(buf[2]) >= 16) ==> LoadLine(w, buf) == (w, Bad)
    ensures buf[0] == ':' && Hexb(buf, 7) != 0 ==> LoadLine(w, buf).0 == w
  {
    hide A.DigitOf, DataSum, PokeData;
  }
}
