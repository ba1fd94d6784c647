/**
 * The text-to-integer conversions the snapshot store relies on: Python 2's
 * `int(text)` (base 10), applied to the part of a file name before its first
 * '.', and the `"{}".format(n)` rendering that names a new snapshot file.
 */
module PyInt {
  import opened Wrappers

  /** C `isspace` in the C locale: the characters Python 2's `int` skips. */
  predicate IsSpace(c: char) {
    c == ' ' || c == '\t' || c == '\n' || c == '\r' || c == '\U{B}' || c == '\U{C}'
  }

  predicate IsDigit(c: char) {
    '0' <= c <= '9'
  }

  /** A non-empty run of decimal digits. */
  predicate IsNumeral(s: string) {
    |s| > 0 && forall i | 0 <= i < |s| :: IsDigit(s[i])
  }

  function DigitValue(c: char): (d: nat)
    requires IsDigit(c)
    ensures d < 10
  {
    c as int - '0' as int
  }

  function DigitChar(d: nat): (c: char)
    requires d < 10
    ensures IsDigit(c) && DigitValue(c) == d
  {
    ('0' as int + d) as char
  }

  /** The value of a run of decimal digits, most significant digit first. */
  function NumeralValue(s: string): nat
    requires forall i | 0 <= i < |s| :: IsDigit(s[i])
  {
    if s == [] then 0 else 10 * NumeralValue(s[..|s| - 1]) + DigitValue(s[|s| - 1])
  }

  function TrimStart(s: string): (r: string)
    ensures r == [] || !IsSpace(r[0])
  {
    if s != [] && IsSpace(s[0]) then TrimStart(s[1..]) else s
  }

  function TrimEnd(s: string): (r: string)
    ensures r == [] || !IsSpace(r[|r| - 1])
  {
    if s != [] && IsSpace(s[|s| - 1]) then TrimEnd(s[..|s| - 1]) else s
  }

  /**
   * Python 2 `int(s)` for a byte string: optional surrounding whitespace, an
   * optional sign (which Python 2 lets whitespace follow), then at least one
   * decimal digit. None stands for the ValueError raised on anything else.
   */
  function ParseInt(s: string): Option<int> {
    ParseTrimmed(TrimEnd(TrimStart(s)))
  }

  /** `int` on a text whose surrounding whitespace is already removed. */
  function ParseTrimmed(t: string): Option<int> {
    if t != [] && (t[0] == '+' || t[0] == '-') then
      var digits := TrimStart(t[1..]);
      if IsNumeral(digits) then
        Some(if t[0] == '-' then -(NumeralValue(digits) as int) else NumeralValue(digits))
      else None
    else if IsNumeral(t) then Some(NumeralValue(t))
    else None
  }

  predicate AllSpaces(s: string) {
    forall i | 0 <= i < |s| :: IsSpace(s[i])
  }

  /**
   * A text Python 2's `int` accepts, cut into its parts: leading spaces, an
   * optional sign, spaces, the digits, trailing spaces.
   */
  datatype IntText = IntText(lead: string, sign: string, gap: string, digits: string, trail: string) {
    predicate Valid() {
      && AllSpaces(lead) && (sign == "" || sign == "+" || sign == "-")
      && AllSpaces(gap) && IsNumeral(digits) && AllSpaces(trail)
    }

    function Text(): string {
      lead + sign + gap + digits + trail
    }

    function Value(): int
      requires Valid()
    {
      if sign == "-" then -(NumeralValue(digits) as int) else NumeralValue(digits)
    }
  }

  lemma AllSpacesCons(c: char, a: string)
    requires IsSpace(c) && AllSpaces(a)
    ensures AllSpaces([c] + a)
  {
  }

  /** TrimStart drops a run of spaces from the front and keeps the rest. */
  lemma {:induction false} TrimStartSplit(s: string)
    ensures |TrimStart(s)| <= |s|
    ensures TrimStart(s) == s[|s| - |TrimStart(s)|..]
    ensures AllSpaces(s[..|s| - |TrimStart(s)|])
  {
    if s != [] && IsSpace(s[0]) {
      var r := s[1..];
      TrimStartSplit(r);
      var k := |r| - |TrimStart(r)|;
      assert s[k + 1..] == r[k..];
      assert s[..k + 1] == [s[0]] + r[..k];
      AllSpacesCons(s[0], r[..k]);
    } else {
      assert s[..0] == [];
    }
  }

  /** TrimEnd drops a run of spaces from the back and keeps the rest. */
  lemma {:induction false} TrimEndSplit(s: string)
    ensures |TrimEnd(s)| <= |s|
    ensures TrimEnd(s) == s[..|TrimEnd(s)|]
    ensures AllSpaces(s[|TrimEnd(s)|..])
  {
    if s != [] && IsSpace(s[|s| - 1]) {
      var front := s[..|s| - 1];
      TrimEndSplit(front);
      var k := |TrimEnd(s)|;
      assert front[..k] == s[..k];
      assert s[k..] == front[k..] + [s[|s| - 1]];
    }
  }

  /** Spaces in front of a text that does not start with one are all TrimStart removes. */
  lemma {:induction false} TrimStartSkips(lead: string, x: string)
    requires AllSpaces(lead) && (x == [] || !IsSpace(x[0]))
    ensures TrimStart(lead + x) == x
  {
    if lead == [] {
      assert lead + x == x;
    } else {
      assert (lead + x)[1..] == lead[1..] + x;
      TrimStartSkips(lead[1..], x);
    }
  }

  /** Spaces after a text that does not end with one are all TrimEnd removes. */
  lemma {:induction false} TrimEndSkips(x: string, trail: string)
    requires AllSpaces(trail) && (x == [] || !IsSpace(x[|x| - 1]))
    ensures TrimEnd(x + trail) == x
  {
    if trail == [] {
      assert x + trail == x;
    } else {
      var n := |trail| - 1;
      assert (x + trail)[..|x + trail| - 1] == x + trail[..n];
      TrimEndSkips(x, trail[..n]);
    }
  }

  /** An unsigned numeral between spaces is an IntText. */
  lemma UnsignedText(lead: string, t: string, trail: string)
    requires AllSpaces(lead) && IsNumeral(t) && AllSpaces(trail)
    ensures var x := IntText(lead, "", "", t, trail);
            x.Valid() && x.Text() == lead + t + trail && x.Value() == NumeralValue(t)
  {
    assert lead + "" + "" + t + trail == lead + t + trail;
  }

  /** A signed numeral between spaces is an IntText. */
  lemma SignedText(lead: string, c: char, gap: string, digits: string, trail: string)
    requires AllSpaces(lead) && (c == '+' || c == '-') && AllSpaces(gap) && IsNumeral(digits) && AllSpaces(trail)
    ensures var x := IntText(lead, [c], gap, digits, trail);
            && x.Valid() && x.Text() == lead + ([c] + gap + digits) + trail
            && x.Value() == if c == '-' then -(NumeralValue(digits) as int) else NumeralValue(digits)
  {
    assert lead + [c] + gap + digits + trail == lead + ([c] + gap + digits) + trail;
  }

  /** Any text is the spaces TrimStart and TrimEnd remove around what they keep. */
  lemma TrimParts(s: string) returns (lead: string, trail: string)
    ensures s == lead + TrimEnd(TrimStart(s)) + trail
    ensures AllSpaces(lead) && AllSpaces(trail)
  {
    var a := TrimStart(s);
    TrimStartSplit(s);
    lead := s[..|s| - |a|];
    assert s == lead + a;
    var t := TrimEnd(a);
    TrimEndSplit(a);
    trail := a[|t|..];
    assert a == t + trail;
  }

  /** Any text is the spaces TrimStart removes followed by what it keeps. */
  lemma LeadParts(s: string) returns (lead: string)
    ensures s == lead + TrimStart(s) && AllSpaces(lead)
  {
    TrimStartSplit(s);
    lead := s[..|s| - |TrimStart(s)|];
  }

  /** Every trimmed text ParseTrimmed accepts is a sign, spaces and digits with that value. */
  lemma ParseTrimmedSound(t: string)
    requires ParseTrimmed(t).Some?
    ensures exists x: IntText :: x.Valid() && x.sign + x.gap + x.digits == t && x.Value() == ParseTrimmed(t).value
  {
    if t != [] && (t[0] == '+' || t[0] == '-') {
      var gap := LeadParts(t[1..]);
      var x := IntText([], [t[0]], gap, TrimStart(t[1..]), []);
      Regroup([t[0]], gap, TrimStart(t[1..]));
      assert t == [t[0]] + t[1..];
      assert x.Valid() && x.Value() == ParseTrimmed(t).value;
    } else {
      var x := IntText([], [], [], t, []);
      assert [] + [] + t == t;
      assert x.Valid() && x.Value() == ParseTrimmed(t).value;
    }
  }

  lemma Regroup(a: string, b: string, c: string)
    ensures a + b + c == a + (b + c)
  {
  }

  lemma RegroupText(lead: string, sign: string, gap: string, digits: string, trail: string)
    ensures lead + sign + gap + digits + trail == lead + (sign + gap + digits) + trail
  {
  }

  /** Every text ParseInt accepts has the shape of an IntText with that value. */
  lemma ParseIntSound(s: string)
    requires ParseInt(s).Some?
    ensures exists x: IntText :: x.Valid() && x.Text() == s && x.Value() == ParseInt(s).value
  {
    var t := TrimEnd(TrimStart(s));
    var lead, trail := TrimParts(s);
    ParseTrimmedSound(t);
    var y: IntText :| y.Valid() && y.sign + y.gap + y.digits == t && y.Value() == ParseTrimmed(t).value;
    var x := y.(lead := lead, trail := trail);
    RegroupText(lead, y.sign, y.gap, y.digits, trail);
    assert x.Text() == s;
    assert x.Valid() && x.Value() == y.Value();
  }

  /** Trimming spaces around a text that neither starts nor ends with one gives the text back. */
  lemma TrimBoth(lead: string, body: string, trail: string)
    requires AllSpaces(lead) && AllSpaces(trail)
    requires body != [] && !IsSpace(body[0]) && !IsSpace(body[|body| - 1])
    ensures TrimEnd(TrimStart(lead + body + trail)) == body
  {
    assert lead + body + trail == lead + (body + trail);
    assert (body + trail)[0] == body[0];
    TrimStartSkips(lead, body + trail);
    TrimEndSkips(body, trail);
  }

  /** A sign, spaces and digits are accepted by ParseTrimmed, with their value. */
  lemma ParseTrimmedComplete(x: IntText)
    requires x.Valid()
    requires x.sign == "" ==> x.gap == []
    ensures ParseTrimmed(x.sign + x.gap + x.digits) == Some(x.Value())
  {
    var d := x.digits;
    if x.sign == "" {
      assert x.sign + x.gap + d == d;
    } else {
      var body := x.sign + x.gap + d;
      assert body[1..] == x.gap + d;
      TrimStartSkips(x.gap, d);
    }
  }

  /** Every IntText is accepted by ParseInt, with its value. */
  lemma ParseIntComplete(x: IntText)
    requires x.Valid()
    ensures ParseInt(x.Text()) == Some(x.Value())
  {
    var d := x.digits;
    var body := x.sign + x.gap + d;
    if x.sign == "" {
      var spaces := x.lead + x.gap;
      assert AllSpaces(spaces) by {
        assert forall i | |x.lead| <= i < |spaces| :: spaces[i] == x.gap[i - |x.lead|];
      }
      assert x.Text() == spaces + d + x.trail;
      TrimBoth(spaces, d, x.trail);
      ParseTrimmedComplete(x.(gap := []));
      assert [] + [] + d == d;
    } else {
      assert x.Text() == x.lead + body + x.trail;
      assert body[|body| - 1] == d[|d| - 1];
      TrimBoth(x.lead, body, x.trail);
      ParseTrimmedComplete(x);
    }
  }

  /**
   * Python 2 `int(s)` returns n exactly when s is spaces, an optional sign,
   * spaces, a non-empty run of digits worth |n| and spaces, with n negative
   * only after a '-'.
   */
  lemma ParseIntAccepts(s: string, n: int)
    ensures ParseInt(s) == Some(n) <==> exists x: IntText :: x.Valid() && x.Text() == s && x.Value() == n
  {
    if ParseInt(s) == Some(n) {
      ParseIntSound(s);
    }
    if exists x: IntText :: x.Valid() && x.Text() == s && x.Value() == n {
      var x: IntText :| x.Valid() && x.Text() == s && x.Value() == n;
      ParseIntComplete(x);
    }
  }

  /** A space, a digit or a sign. */
  predicate IntChar(c: char) {
    IsSpace(c) || IsDigit(c) || c == '+' || c == '-'
  }

  lemma IntTextChars(x: IntText)
    requires x.Valid()
    ensures forall i | 0 <= i < |x.Text()| :: IntChar(x.Text()[i])
  {
    var s := x.Text();
    var l, g, d := |x.lead|, |x.sign| + |x.gap|, |x.digits|;
    assert s == x.lead + (x.sign + x.gap) + x.digits + x.trail;
    forall i | 0 <= i < |s|
      ensures IntChar(s[i])
    {
      if i < l {
        assert s[i] == x.lead[i];
      } else if i < l + |x.sign| {
        assert s[i] == x.sign[i - l];
      } else if i < l + g {
        assert s[i] == x.gap[i - l - |x.sign|];
      } else if i < l + g + d {
        assert s[i] == x.digits[i - l - g];
      } else {
        assert s[i] == x.trail[i - l - g - d];
      }
    }
  }

  /** A text ParseInt accepts holds only spaces, digits and signs. */
  lemma ParseIntChars(s: string)
    requires ParseInt(s).Some?
    ensures forall i | 0 <= i < |s| :: IntChar(s[i])
  {
    ParseIntSound(s);
    var x: IntText :| x.Valid() && x.Text() == s && x.Value() == ParseInt(s).value;
    IntTextChars(x);
  }

  /** A text with a character that is neither a space, a digit nor a sign is rejected. */
  lemma ParseIntRejectsStray(s: string, i: nat)
    requires i < |s| && !IntChar(s[i])
    ensures ParseInt(s) == None
  {
    if ParseInt(s).Some? {
      ParseIntChars(s);
    }
  }

  /** Nothing at all, a sign with nothing after it, and a digit followed by a letter are rejected. */
  lemma ParseIntRejectsEdges()
    ensures ParseInt("") == None && ParseInt("+") == None && ParseInt(" - ") == None
    ensures ParseInt("1a") == None
  {
    ParseIntRejectsStray("1a", 1);
    assert TrimStart(" - ") == "- ";
    assert TrimEnd("- ") == "-";
    assert TrimStart("-"[1..]) == "";
  }

  /** Spaces may stand around the text and between the sign and the digits. */
  lemma ParseIntSpaceAfterSign()
    ensures ParseInt(" - 5 ") == Some(-5)
  {
    var x := IntText(" ", "-", " ", "5", " ");
    assert x.Text() == " - 5 ";
    ParseIntComplete(x);
  }

  /** `name.split(".")[0]`: the text before the first '.', or all of it. */
  function BeforeFirstDot(name: string): (r: string)
    ensures |r| <= |name| && r == name[..|r|]
    ensures forall i | 0 <= i < |r| :: r[i] != '.'
    ensures |r| < |name| ==> name[|r|] == '.'
  {
    if name == [] || name[0] == '.' then [] else [name[0]] + BeforeFirstDot(name[1..])
  }

  /** The snapshot instant a file name stands for, as `int(name.split(".")[0])` reads it. */
  function Timestamp(name: string): Option<int> {
    ParseInt(BeforeFirstDot(name))
  }

  /** Decimal digits of a natural number, without leading zeros. */
  function Numeral(n: nat): string
    decreases n
  {
    if n < 10 then [DigitChar(n)] else Numeral(n / 10) + [DigitChar(n % 10)]
  }

  /** `"{}".format(n)` for an integer. */
  function Format(n: int): string {
    if n < 0 then "-" + Numeral(-n) else Numeral(n)
  }

  /** `"{}.pkl".format(n)`: the file a snapshot taken at instant n is stored in. */
  function SnapshotName(n: int): string {
    Format(n) + ".pkl"
  }

  lemma {:induction false} NumeralRoundTrip(n: nat)
    ensures IsNumeral(Numeral(n)) && NumeralValue(Numeral(n)) == n
    decreases n
  {
    if n >= 10 {
      NumeralRoundTrip(n / 10);
      var s := Numeral(n);
      assert s[..|s| - 1] == Numeral(n / 10);
    }
  }

  lemma {:induction false} ParseFormat(n: int)
    ensures ParseInt(Format(n)) == Some(n)
  {
    var m := if n < 0 then -n else n;
    NumeralRoundTrip(m);
    var s := Format(n);
    assert TrimStart(s) == s;
    assert TrimEnd(s) == s;
    if n < 0 {
      assert s[1..] == Numeral(m);
      assert TrimStart(s[1..]) == s[1..];
    }
  }

  lemma {:induction false} BeforeFirstDotOfDotted(s: string, rest: string)
    requires forall i | 0 <= i < |s| :: s[i] != '.'
    ensures BeforeFirstDot(s + "." + rest) == s
  {
    var whole := s + "." + rest;
    if s != [] {
      assert whole[0] == s[0] && whole[1..] == s[1..] + "." + rest;
      BeforeFirstDotOfDotted(s[1..], rest);
      assert [s[0]] + s[1..] == s;
    }
  }

  lemma FormatHasNoDot(n: int)
    ensures forall i | 0 <= i < |Format(n)| :: Format(n)[i] != '.'
  {
    NumeralRoundTrip(if n < 0 then -n else n);
  }

  /** A snapshot file written at instant n is read back as instant n. */
  lemma TimestampOfSnapshotName(n: int)
    ensures Timestamp(SnapshotName(n)) == Some(n)
  {
    FormatHasNoDot(n);
    BeforeFirstDotOfDotted(Format(n), "pkl");
    assert SnapshotName(n) == Format(n) + "." + "pkl";
    ParseFormat(n);
  }

  /** Appending a digit multiplies the value so far by ten and adds the digit. */
  lemma NumeralValueSnoc(s: string, c: char)
    requires forall i | 0 <= i < |s| :: IsDigit(s[i])
    requires IsDigit(c)
    ensures NumeralValue(s + [c]) == 10 * NumeralValue(s) + DigitValue(c)
  {
    assert (s + [c])[..|s|] == s;
  }

  /** The digits "0123" are the number 123: a leading zero adds nothing. */
  lemma ValueOfLeadingZero()
    ensures IsNumeral("0123") && NumeralValue("0123") == 123
  {
    var d0, d1, d2, d3 := "0", "01", "012", "0123";
    assert d1 == d0 + ['1'] && d2 == d1 + ['2'] && d3 == d2 + ['3'];
    NumeralValueSnoc([], '0');
    assert [] + ['0'] == d0;
    NumeralValueSnoc(d0, '1');
    NumeralValueSnoc(d1, '2');
    NumeralValueSnoc(d2, '3');
  }

  /** "0123.pkl" reads as instant 123. */
  lemma LeadingZeroParses()
    ensures Timestamp("0123.pkl") == Some(123)
  {
    var s := "0123";
    BeforeFirstDotOfDotted(s, "pkl");
    assert s + "." + "pkl" == "0123.pkl";
    ValueOfLeadingZero();
    var x := IntText([], [], [], s, []);
    assert x.Text() == s;
    ParseIntComplete(x);
  }

  /** The file for instant 123 is "123.pkl". */
  lemma SnapshotNameOf123()
    ensures SnapshotName(123) == "123.pkl"
  {
    assert Numeral(1) == "1";
    assert Numeral(12) == Numeral(1) + [DigitChar(2)] == "12";
    assert Numeral(123) == Numeral(12) + [DigitChar(3)] == "123";
  }

  /**
   * Parsing is not the inverse of naming: "0123.pkl" reads as instant 123,
   * but the file for instant 123 is "123.pkl".
   */
  lemma LeadingZeroNameIsNotSnapshotName()
    ensures Timestamp("0123.pkl") == Some(123)
    ensures SnapshotName(123) == "123.pkl" != "0123.pkl"
  {
    LeadingZeroParses();
    SnapshotNameOf123();
    assert "123.pkl"[0] != "0123.pkl"[0];
  }
}
