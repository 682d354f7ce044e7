/**
 * DumpBytes: the sample's hex dump of a buffer, `step` bytes per line, each
 * line showing its offset, the bytes in hex and the bytes as text with the
 * unprintable ones shown as '.'. Only whole lines are shown.
 */
module HexDump {
  import opened CTypes

  /** One printed line: its offset, the bytes shown in hex and the same bytes as text. */
  datatype DumpLine = DumpLine(offset: nat, hex: seq<byte>, text: seq<char>)

  /** The character shown for a byte: itself when it is printable ASCII, '.' otherwise. */
  function Printable(c: byte): (r: char)
    ensures ' ' <= r <= '~'
    ensures 32 <= c < 127 <==> r == c as char
  {
    if c < 32 || c >= 127 then '.' else c as char
  }

  /** The text column for a run of bytes. */
  function TextOf(bytes: seq<byte>): (t: seq<char>)
    ensures |t| == |bytes|
    ensures forall j :: 0 <= j < |t| ==> t[j] == Printable(bytes[j])
  {
    seq(|bytes|, j requires 0 <= j < |bytes| => Printable(bytes[j]))
  }

  /** Line `i` of the dump of `buf`. */
  function LineAt(buf: seq<byte>, step: nat, i: nat): DumpLine
    requires (i + 1) * step <= |buf|
  {
    DumpLine(i * step, buf[i * step..(i + 1) * step], TextOf(buf[i * step..(i + 1) * step]))
  }

  /** A line that fits is within the buffer. */
  lemma LineFits(n: nat, step: nat, i: nat)
    requires step > 0 && i < n / step
    ensures (i + 1) * step <= n
  {
    assert i + 1 <= n / step;
    assert (i + 1) * step <= (n / step) * step;
  }

  /** The dump of `buf`: its `|buf| / step` whole lines; a trailing partial line is not shown. */
  function Dump(buf: seq<byte>, step: nat): (lines: seq<DumpLine>)
    requires step > 0
    ensures |lines| == |buf| / step
  {
    seq(|buf| / step, i requires 0 <= i < |buf| / step =>
      LineFits(|buf|, step, i); LineAt(buf, step, i))
  }

  /** The hex columns of `lines`, one after another. */
  function HexColumns(lines: seq<DumpLine>): seq<byte>
  {
    if |lines| == 0 then [] else HexColumns(lines[..|lines| - 1]) + lines[|lines| - 1].hex
  }

  /** The first `m` lines of the dump show, in order, the first `m * step` bytes. */
  lemma {:induction false} HexColumnsPrefix(buf: seq<byte>, step: nat, m: nat)
    requires step > 0 && m <= |buf| / step
    ensures m * step <= |buf|
    ensures HexColumns(Dump(buf, step)[..m]) == buf[..m * step]
  {
    if m > 0 {
      HexColumnsPrefix(buf, step, m - 1);
      LineFits(|buf|, step, m - 1);
      var d := Dump(buf, step);
      assert d[..m][..m - 1] == d[..m - 1];
      assert d[m - 1].hex == buf[(m - 1) * step..m * step];
      assert buf[..(m - 1) * step] + buf[(m - 1) * step..m * step] == buf[..m * step];
    }
  }

  /** The whole lines cover the buffer but for fewer than `step` trailing bytes. */
  lemma WholeLines(n: nat, step: nat)
    requires step > 0
    ensures n - step < (n / step) * step <= n
  {
    assert n == (n / step) * step + n % step;
  }

  /**
   * The dump shows every byte of the buffer's whole lines once and in order:
   * the hex columns read back the buffer, up to the last whole line, and
   * fewer than `step` bytes are left unshown.
   */
  lemma HexColumnsDump(buf: seq<byte>, step: nat)
    requires step > 0
    ensures |buf| - step < (|buf| / step) * step <= |buf|
    ensures HexColumns(Dump(buf, step)) == buf[..(|buf| / step) * step]
  {
    WholeLines(|buf|, step);
    var d := Dump(buf, step);
    HexColumnsPrefix(buf, step, |d|);
    assert d[..|d|] == d;
  }

  /** Each line starts where the previous one ended and shows `step` bytes beside their text. */
  lemma DumpLines(buf: seq<byte>, step: nat, i: nat)
    requires step > 0 && i < |buf| / step
    ensures i * step + step <= |buf|
    ensures var l := Dump(buf, step)[i];
      l.offset == i * step && l.hex == buf[i * step..i * step + step] && l.text == TextOf(l.hex)
  {
    LineFits(|buf|, step, i);
  }

  /**
   * DumpBytes(buf, n, step): prints the `n / step` whole lines of the first
   * `n` bytes of `buf`. As in the source, `n` counts down as bytes are shown,
   * and the text column is walked with a count-down of `k`.
   */
  method DumpBytes(buf: seq<byte>, n: nat, step: nat) returns (out: seq<DumpLine>)
    requires n <= |buf| && step > 0
    ensures out == Dump(buf[..n], step)
  {
    ghost var n0 := n;
    ghost var b := buf[..n];
    var n := n;
    var lines := n / step;
    out := [];
    var i := 0;
    while i < lines
      invariant i <= lines && lines == n0 / step
      invariant n == n0 - i * step
      invariant out == Dump(b, step)[..i]
    {
      LineFits(n0, step, i);
      var hex: seq<byte> := [];
      var k := 0;
      while n != 0 && k < step
        invariant k <= step && n == n0 - i * step - k
        invariant hex == buf[i * step..i * step + k]
      {
        hex := hex + [buf[i * step + k]];
        k, n := k + 1, n - 1;
      }
      var last := k;
      var text: seq<char> := [];
      while k > 0
        invariant 0 <= k <= last == step
        invariant text == TextOf(buf[i * step..i * step + last - k])
      {
        k := k - 1;
        var c := buf[i * step + last - k - 1];
        text := text + [Printable(c)];
      }
      assert buf[i * step..(i + 1) * step] == b[i * step..(i + 1) * step];
      assert Dump(b, step)[i] == DumpLine(i * step, hex, text);
      assert Dump(b, step)[..i + 1] == Dump(b, step)[..i] + [Dump(b, step)[i]];
      out := out + [DumpLine(i * step, hex, text)];
      i := i + 1;
    }
    assert Dump(b, step)[..i] == Dump(b, step);
  }
}
