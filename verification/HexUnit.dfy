// save_hex and load_hex as the loops of cli/umkcli.c, over the board and a line buffer.
module HexUnit {
  import opened Bits
  import B = Board
  import BoardUnit
  import opened IntelHex
  import Laws = HexLaws
  import A = Assembler

  /** `save_hex`. */
  method SaveHex(bus: BoardUnit.Bus, addr: word, len: nat) returns (file: seq<string>)
    requires bus.Valid()
    ensures file == Save(bus.View(), addr, len)
  {
    hide Record, Bytes;
    ghost var w := bus.View();
    file := [];
    var i := 0;
    while i < len
      invariant bus.Valid() && bus.View() == w
      invariant 0 <= i && file + Records(w, addr, len, i) == Records(w, addr, len, 0)
    {
      var n := if len - i < 16 then len - i else 16;
      var text := SaveRecord(bus, addr + i, n);
      assert file + [text] + Records(w, addr, len, i + 16) == file + ([text] + Records(w, addr, len, i + 16));
      file := file + [text];
      i := i + 16;
    }
    assert file + [] == file;
    file := file + [END_RECORD];
  }

  /** One turn of the loop: the record of `n` bytes from `a`. */
  method SaveRecord(bus: BoardUnit.Bus, a: nat, n: nat) returns (text: string)
    requires bus.Valid() && n <= RECORD_BYTES
    ensures text == Record(a, Bytes(bus.View(), a, n))
  {
    hide B.Peek, Pair, Hex4, Pairs, Sum;
    ghost var w := bus.View();
    ghost var data := Bytes(w, a, n);
    var head := ":" + Pair(n) + Hex4(a) + "00";
    text := head;
    var sum := n + a / 256 % 256 + a % 256;
    var k := 0;
    NoneYet(data);
    while k < n
      invariant bus.Valid() && bus.View() == w && 0 <= k <= n
      invariant 0 <= sum && text == head + Pairs(data[..k])
      invariant sum == n + a / 256 % 256 + a % 256 + Sum(data[..k])
    {
      var b := bus.Peek((a + k) % 0x1_0000);
      OneMore(data, k);
      text := text + Pair(b);
      sum := sum + b;
      k := k + 1;
    }
    assert data[..n] == data;
    text := text + Pair((256 - sum % 256) % 256) + "\n";
  }

  lemma NoneYet(data: seq<byte>)
    ensures Pairs(data[..0]) == "" && Sum(data[..0]) == 0
  {
  }

  lemma OneMore(data: seq<byte>, k: nat)
    requires k < |data|
    ensures Pairs(data[..k + 1]) == Pairs(data[..k]) + Pair(data[k])
    ensures Sum(data[..k + 1]) == Sum(data[..k]) + data[k]
  {
    hide Pair;
    Laws.PairsAppend(data[..k], [data[k]]);
    Laws.SumAppend(data[..k], [data[k]]);
    Laws.SumOfOne(data[k]);
    assert Pairs([data[k]]) == Pair(data[k]);
    assert data[..k + 1] == data[..k] + [data[k]];
  }

  /** `fgets`. */
  method Fill(line: array<char>, text: string)
    requires line.Length == LINE_CHARS && |text| < LINE_CHARS
    modifies line
    ensures line[..] == Gets(old(line[..]), text)
  {
    var i := 0;
    while i < |text|
      invariant 0 <= i <= |text|
      invariant forall k :: 0 <= k < i ==> line[k] == text[k]
      invariant forall k :: i <= k < LINE_CHARS ==> line[k] == old(line[k])
    {
      line[i] := text[i];
      i := i + 1;
    }
    line[i] := '\0';
  }

  /** `hexb`. */
  method ReadHexb(line: array<char>, i: nat) returns (v: int)
    requires line.Length == LINE_CHARS && i + 1 < LINE_CHARS
    ensures v == Hexb(line[..], i)
  {
    v := -1;
    var hi, lo := A.DigitOf(line[i]), A.DigitOf(line[i + 1]);
    if hi < 16 && lo < 16 {
      v := 16 * hi + lo;
    }
  }

  /** The body of the reading loop, for the line in the buffer. */
  method Take(bus: BoardUnit.Bus, line: array<char>) returns (v: Verdict)
    requires bus.Valid() && line.Length == LINE_CHARS && line !in bus.Repr()
    modifies bus.ram, bus.trialIdx, bus.trialOld, bus`trialN
    ensures bus.Valid() && (bus.View(), v) == LoadLine(old(bus.View()), line[..])
  {
    hide Hexb, B.Poke, BoardUnit.Bus.View, PokeData, DataSum;
    if line[0] != ':' {
      return Go;
    }
    var len := ReadHexb(line, 1);
    if len < 0 {
      return Bad;
    }
    assert len <= 255 by { HexbIsSmall(line[..], 1); }
    var hi := ReadHexb(line, 3);
    var lo := ReadHexb(line, 5);
    var addr := Joined(hi, lo);
    var kind := ReadHexb(line, 7);
    var data := TakeData(bus, line, addr, kind, len);
    var sum := len + addr / 256 % 256 + addr % 256 + kind + data;
    var want := ReadHexb(line, 9 + len * 2);
    if (sum + want) % 256 != 0 {
      return Bad;
    }
    return if kind == 1 then Done else Go;
  }

  /** The loop over the bytes of a record: their sum, and for data the pokes. */
  method TakeData(bus: BoardUnit.Bus, line: array<char>, addr: int, kind: int, len: nat) returns (sum: int)
    requires bus.Valid() && line.Length == LINE_CHARS && line !in bus.Repr() && len <= 255
    modifies bus.ram, bus.trialIdx, bus.trialOld, bus`trialN
    ensures bus.Valid() && sum == DataSum(line[..], len)
    ensures bus.View() == if kind == 0 then PokeData(old(bus.View()), line[..], addr, len) else old(bus.View())
  {
    hide Hexb, B.Poke, BoardUnit.Bus.View;
    sum := 0;
    var i := 0;
    while i < len
      invariant 0 <= i <= len && bus.Valid()
      invariant sum == DataSum(line[..], i)
      invariant bus.View() == if kind == 0 then PokeData(old(bus.View()), line[..], addr, i) else old(bus.View())
    {
      var b := ReadHexb(line, 9 + i * 2);
      sum := sum + b;
      if kind == 0 {
        bus.Poke((addr + i) % 0x1_0000, b % 256);
      }
      i := i + 1;
    }
  }

  lemma HexbIsSmall(buf: Buffer, i: nat)
    requires i + 1 < LINE_CHARS
    ensures -1 <= Hexb(buf, i) <= 255
  {
  }

  /** `load_hex`; the line buffer starts out with whatever it happens to hold. */
  method LoadHex(bus: BoardUnit.Bus, lines: seq<string>) returns (ok: bool, ghost before: Buffer)
    requires bus.Valid() && Lines(lines)
    modifies bus.ram, bus.trialIdx, bus.trialOld, bus`trialN
    ensures bus.Valid() && (bus.View(), ok) == Load(old(bus.View()), before, lines)
  {
    hide LoadLine, Gets;
    ghost var w := bus.View();
    var line := new char[LINE_CHARS];
    before := line[..];
    var i := 0;
    while i < |lines|
      invariant 0 <= i <= |lines| && bus.Valid()
      invariant Load(bus.View(), line[..], lines[i..]) == Load(w, before, lines)
    {
      Fill(line, lines[i]);
      assert lines[i..][0] == lines[i] && lines[i..][1..] == lines[i + 1..];
      var v := Take(bus, line);
      if v == Bad {
        return false, before;
      }
      i := i + 1;
      if v == Done {
        return true, before;
      }
    }
    assert lines[i..] == [];
    ok := true;
  }
}
