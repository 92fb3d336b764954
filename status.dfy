/** The text the editor puts in its status bar after each key release:
    `<file name> — Línea: <row>, Col: <column>`, both counted from 1, where the
    file name is the last component of `current_file`, or `Sin título` when no
    file is associated. */
module Status {
  import opened Session

  const Untitled: string := "Sin t\U{00ED}tulo"
  const LinePrefix: string := " \U{2014} L\U{00ED}nea: "
  const ColumnPrefix: string := ", Col: "

  /** `os.path.basename` on a POSIX path: the part after the last `/`. The
      result is the longest suffix of the path that holds no `/`. */
  function Basename(path: string): (name: string)
    ensures '/' !in name
    ensures |name| <= |path| && name == path[|path| - |name|..]
    ensures |name| < |path| ==> path[|path| - |name| - 1] == '/'
  {
    if path == [] || path[|path| - 1] == '/' then []
    else Basename(path[..|path| - 1]) + [path[|path| - 1]]
  }

  /** The three properties of `Basename` pin it down: a `/`-free suffix that
      is the whole path or follows a `/` is the base name. */
  lemma {:induction false} BasenameUnique(path: string, name: string)
    requires '/' !in name
    requires |name| <= |path| && name == path[|path| - |name|..]
    requires |name| < |path| ==> path[|path| - |name| - 1] == '/'
    ensures name == Basename(path)
    decreases |path|
  {
    if name != [] {
      var p, m := path[..|path| - 1], name[..|name| - 1];
      assert name[|name| - 1] == path[|path| - 1];
      assert name == m + [path[|path| - 1]];
      assert m == p[|p| - |m|..];
      BasenameUnique(p, m);
    }
  }

  /** The name shown for the session: the base name of an associated file,
      otherwise `Sin título`. */
  function DisplayName(file: Option<string>): (name: string)
    ensures Associated(file) ==> '/' !in name && |name| <= |file.value| && name == file.value[|file.value| - |name|..]
    ensures Associated(file) && |name| < |file.value| ==> file.value[|file.value| - |name| - 1] == '/'
    ensures !Associated(file) ==> name == Untitled
  {
    if Associated(file) then Basename(file.value) else Untitled
  }

  predicate IsDigit(c: char) {
    '0' <= c <= '9'
  }

  function DigitChar(d: nat): (c: char)
    requires d < 10
    ensures IsDigit(c)
  {
    ('0' as int + d) as char
  }

  function DigitValue(c: char): (d: nat)
    requires IsDigit(c)
    ensures d < 10 && DigitChar(d) == c
  {
    c as int - '0' as int
  }

  /** Decimal digits of a natural number, as Python's `str` writes them. */
  function NatToDecimal(n: nat): (s: string)
    ensures |s| >= 1
    ensures forall i :: 0 <= i < |s| ==> IsDigit(s[i])
    ensures s[0] == '0' ==> n == 0
    decreases n
  {
    if n < 10 then [DigitChar(n)] else NatToDecimal(n / 10) + [DigitChar(n % 10)]
  }

  /** The number a string of decimal digits denotes. */
  function DecimalValue(s: string): nat
    requires forall i :: 0 <= i < |s| ==> IsDigit(s[i])
  {
    if s == [] then 0 else DecimalValue(s[..|s| - 1]) * 10 + DigitValue(s[|s| - 1])
  }

  lemma {:induction false} DecimalRoundTrip(n: nat)
    ensures DecimalValue(NatToDecimal(n)) == n
    decreases n
  {
    var s := NatToDecimal(n);
    if n >= 10 {
      DecimalRoundTrip(n / 10);
      assert s[..|s| - 1] == NatToDecimal(n / 10);
    }
  }

  /** Python's `str` of an integer: a minus sign before the digits of a
      negative one. */
  function IntToDecimal(i: int): (s: string)
    ensures |s| >= 1
    ensures forall k :: 1 <= k < |s| ==> IsDigit(s[k])
    ensures IsDigit(s[0]) || s[0] == '-'
    ensures (s[0] == '-') <==> i < 0
  {
    if i < 0 then "-" + NatToDecimal(-i) else NatToDecimal(i)
  }

  /** Reads back what `IntToDecimal` writes. */
  function ParseInt(s: string): int
    requires |s| >= 1
    requires forall k :: 1 <= k < |s| ==> IsDigit(s[k])
    requires s[0] == '-' || IsDigit(s[0])
  {
    if s[0] == '-' then -(DecimalValue(s[1..]) as int) else DecimalValue(s)
  }

  lemma IntRoundTrip(i: int)
    ensures ParseInt(IntToDecimal(i)) == i
  {
    if i < 0 {
      assert IntToDecimal(i)[1..] == NatToDecimal(-i);
      DecimalRoundTrip(-i);
    } else {
      DecimalRoundTrip(i);
    }
  }

  /** Distinct numbers are written differently. */
  lemma IntToDecimalInjective(i: int, j: int)
    requires IntToDecimal(i) == IntToDecimal(j)
    ensures i == j
  {
    IntRoundTrip(i);
    IntRoundTrip(j);
  }

  /** The status text for a caret at column `x`, row `y` (both 0-based as the
      toolkit reports them); the text shows them 1-based. */
  function StatusLine(name: string, x: int, y: int): string {
    name + LinePrefix + IntToDecimal(y + 1) + ColumnPrefix + IntToDecimal(x + 1)
  }

  /** If `a + ", Col: " + b` and `a' + ", Col: " + b'` are the same text and
      neither `a` nor `a'` holds a comma, the parts agree. */
  lemma SplitAtColumn(a: string, b: string, a': string, b': string)
    requires ',' !in a && ',' !in a'
    requires a + ColumnPrefix + b == a' + ColumnPrefix + b'
    ensures a == a' && b == b'
  {
    var s := a + ColumnPrefix + b;
    assert s[|a|] == ',';
    assert s[|a'|] == ',';
    if |a| < |a'| {
      assert false;
    } else if |a'| < |a| {
      assert false;
    }
    assert a == s[..|a|] == a';
    assert b == s[|a| + |ColumnPrefix|..] == b';
  }

  /** The status text tells the row and the column apart and determines both:
      two carets of the same file that give the same text are at the same
      position. */
  lemma StatusLineDeterminesPosition(name: string, x: int, y: int, x': int, y': int)
    requires StatusLine(name, x, y) == StatusLine(name, x', y')
    ensures x == x' && y == y'
  {
    var p := name + LinePrefix;
    var a, b := IntToDecimal(y + 1), IntToDecimal(x + 1);
    var a', b' := IntToDecimal(y' + 1), IntToDecimal(x' + 1);
    assert p + (a + ColumnPrefix + b) == StatusLine(name, x, y);
    assert p + (a' + ColumnPrefix + b') == StatusLine(name, x', y');
    assert a + ColumnPrefix + b == a' + ColumnPrefix + b' by {
      var s := StatusLine(name, x, y);
      assert a + ColumnPrefix + b == s[|p|..];
      assert a' + ColumnPrefix + b' == s[|p|..];
    }
    assert forall k :: 0 <= k < |a| ==> a[k] != ',';
    assert forall k :: 0 <= k < |a'| ==> a'[k] != ',';
    SplitAtColumn(a, b, a', b');
    IntToDecimalInjective(y + 1, y' + 1);
    IntToDecimalInjective(x + 1, x' + 1);
  }

  /** The status text begins with the file's display name and reads the row
      and the column back as 1-based numbers. */
  lemma StatusLineShowsOneBased(name: string, x: int, y: int)
    ensures StatusLine(name, x, y)[..|name|] == name
    ensures exists a, b ::
      StatusLine(name, x, y) == name + LinePrefix + a + ColumnPrefix + b
      && |a| >= 1 && |b| >= 1
      && (forall k :: 1 <= k < |a| ==> IsDigit(a[k])) && (a[0] == '-' || IsDigit(a[0]))
      && (forall k :: 1 <= k < |b| ==> IsDigit(b[k])) && (b[0] == '-' || IsDigit(b[0]))
      && ParseInt(a) == y + 1 && ParseInt(b) == x + 1
  {
    var a, b := IntToDecimal(y + 1), IntToDecimal(x + 1);
    IntRoundTrip(y + 1);
    IntRoundTrip(x + 1);
    assert StatusLine(name, x, y) == name + LinePrefix + a + ColumnPrefix + b;
  }
}
