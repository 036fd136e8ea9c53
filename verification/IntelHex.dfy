// Saving and loading Intel HEX records: save_hex, load_hex and hexb of cli/umkcli.c, over the
// machine's memory. Files are sequences of lines.
module IntelHex {
  import opened Bits
  import opened Board
  import D = Disassembler
  import A = Assembler

  const LINE_CHARS := 600
  const RECORD_BYTES := 16

  // ---------- writing ----------

  /** %02X. */
  function Pair(b: byte): string { [D.HexDigit(b / 16), D.HexDigit(b % 16)] }

  function Pairs(bs: seq<byte>): string
  {
    if bs == [] then "" else Pair(bs[0]) + Pairs(bs[1..])
  }

  /** %04X: at least four digits, and more when the number needs them. */
  function Hex4(a: nat): string
    decreases a
  {
    if a < 0x1_0000 then Pair(a / 256) + Pair(a % 256) else Hex4(a / 16) + [D.HexDigit(a % 16)]
  }

  function Sum(bs: seq<byte>): nat
  {
    if bs == [] then 0 else bs[0] + Sum(bs[1..])
  }

  /** The bytes that read back from `n` addresses. */
  function Bytes(w: World, a: nat, n: nat): (bs: seq<byte>)
    ensures |bs| == n
  {
    seq<byte>(n, k requires 0 <= k < n => Peek(w, (a + k) % 0x1_0000))
  }

  function Checksum(a: nat, data: seq<byte>): byte
  {
    (256 - (|data| + a / 256 % 256 + a % 256 + Sum(data)) % 256) % 256
  }

  /** One data record for the bytes from `a`. */
  function Record(a: nat, data: seq<byte>): string
    requires |data| <= RECORD_BYTES
  {
    ":" + Pair(|data|) + Hex4(a) + "00" + Pairs(data) + Pair(Checksum(a, data)) + "\n"
  }

  const END_RECORD := ":00000001FF\n"

  /** The data records for the bytes from offset `i` on. */
  function Records(w: World, addr: word, len: nat, i: nat): seq<string>
    decreases len - i
  {
    if i >= len then []
    else
      var n := if len - i < RECORD_BYTES then len - i else RECORD_BYTES;
      [Record(addr + i, Bytes(w, addr + i, n))] + Records(w, addr, len, i + RECORD_BYTES)
  }

  /** `save_hex`. */
  function Save(w: World, addr: word, len: nat): seq<string>
  {
    Records(w, addr, len, 0) + [END_RECORD]
  }

  // ---------- reading ----------

  /** `hexb` at a position of the line buffer: -1 unless both characters are hexadecimal digits. */
  function Hexb(buf: seq<char>, i: nat): int
    requires i + 1 < |buf|
  {
    var hi, lo := A.DigitOf(buf[i]), A.DigitOf(buf[i + 1]);
    if hi < 16 && lo < 16 then 16 * hi + lo else -1
  }

  /** (hi << 8) | lo of two such results, in two's complement. */
  function Joined(hi: int, lo: int): int { if lo < 0 then -1 else 256 * hi + lo }

  type Buffer = b: seq<char> | |b| == LINE_CHARS witness seq(LINE_CHARS, _ => 'x')

  /** `fgets` into the line buffer; what lies beyond the line stays from before. */
  function Gets(buf: Buffer, line: string): Buffer
    requires |line| < LINE_CHARS
  {
    line + ['\0'] + buf[|line| + 1..]
  }

  datatype Verdict = Go | Done | Bad

  function DataSum(buf: Buffer, n: nat): int
    requires n <= 255
  {
    if n == 0 then 0 else DataSum(buf, n - 1) + Hexb(buf, 9 + 2 * (n - 1))
  }

  /** The bytes of a data record poked one after another. */
  function PokeData(w: World, buf: Buffer, addr: int, n: nat): World
    requires n <= 255
  {
    if n == 0 then w
    else Poke(PokeData(w, buf, addr, n - 1), (addr + n - 1) % 0x1_0000, Hexb(buf, 9 + 2 * (n - 1)) % 256)
  }

  /** One line of `load_hex`. */
  function LoadLine(w: World, buf: Buffer): (World, Verdict)
  {
    if buf[0] != ':' then (w, Go)
    else if Hexb(buf, 1) < 0 then (w, Bad)
    else
      var len := Hexb(buf, 1);
      var addr := Joined(Hexb(buf, 3), Hexb(buf, 5));
      var kind := Hexb(buf, 7);
      var w1 := if kind == 0 then PokeData(w, buf, addr, len) else w;
      var sum := len + addr / 256 % 256 + addr % 256 + kind + DataSum(buf, len);
      if (sum + Hexb(buf, 9 + 2 * len)) % 256 != 0 then (w1, Bad)
      else if kind == 1 then (w1, Done)
      else (w1, Go)
  }

  predicate Lines(lines: seq<string>)
  {
    forall k :: 0 <= k < |lines| ==> |lines[k]| < LINE_CHARS
  }

  /** `load_hex`: the memory afterwards and whether it reports success. */
  function Load(w: World, buf: Buffer, lines: seq<string>): (World, bool)
    requires Lines(lines)
    decreases |lines|
  {
    if lines == [] then (w, true)
    else
      var b := Gets(buf, lines[0]);
      var (w1, v) := LoadLine(w, b);
      if v == Go then Load(w1, b, lines[1..]) else (w1, v == Done)
  }
}
