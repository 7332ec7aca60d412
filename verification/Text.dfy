/** Decimal numerals and clock texts, with the parsing that undoes them. */
module Text {
  import opened Common

  function Digit(d: nat): char
    requires d < 10
  {
    ('0' as int + d) as char
  }

  predicate IsDigit(c: char) {
    '0' <= c <= '9'
  }

  /** The decimal numeral of n, as String(n) writes it. */
  function Numeral(n: nat): (s: string)
    ensures |s| >= 1 && forall i :: 0 <= i < |s| ==> IsDigit(s[i])
  {
    if n < 10 then [Digit(n)] else Numeral(n / 10) + [Digit(n % 10)]
  }

  /** Number(s) on texts without sign, space or point: the empty text is 0, and None stands for NaN. */
  function ParseNumber(s: string): Option<nat> {
    if s == "" then Some(0)
    else
      var rest := ParseNumber(s[..|s| - 1]);
      var c := s[|s| - 1];
      if rest.None? || !IsDigit(c) then None else Some(10 * rest.value + (c as int - '0' as int))
  }

  lemma {:induction false} ParseNumeral(n: nat)
    ensures ParseNumber(Numeral(n)) == Some(n)
  {
    if n < 10 {
      assert Numeral(n)[..0] == "";
    } else {
      ParseNumeral(n / 10);
      assert Numeral(n)[..|Numeral(n)| - 1] == Numeral(n / 10);
    }
  }

  /** Different numbers have different numerals. */
  lemma NumeralsDiffer(m: nat, n: nat)
    requires Numeral(m) == Numeral(n)
    ensures m == n
  {
    ParseNumeral(m);
    ParseNumeral(n);
  }

  function PadStart2(s: string): string {
    if |s| >= 2 then s else if |s| == 1 then "0" + s else "00"
  }

  /** A leading zero does not change a one-digit number. */
  lemma ZeroPadded(c: char)
    requires IsDigit(c)
    ensures ParseNumber(['0', c]) == ParseNumber([c])
  {
    var padded := ['0', c];
    assert [c][..0] == "" && ['0'][..0] == "";
    assert padded[..1] == ['0'];
    assert ParseNumber(['0']) == Some(0);
  }

  lemma PadKeepsNumber(n: nat)
    ensures ParseNumber(PadStart2(Numeral(n))) == Some(n)
  {
    ParseNumeral(n);
    var s := Numeral(n);
    if |s| == 1 {
      assert s == [s[0]] && PadStart2(s) == ['0', s[0]];
      ZeroPadded(s[0]);
    }
  }

  /** "HH:MM" of a minute count; hours past 99 simply grow. */
  function FormatMinutes(mins: nat): string {
    PadStart2(Numeral(mins / 60)) + ":" + PadStart2(Numeral(mins % 60))
  }

  /** The position of the first c at or after i, or the length. */
  function IndexFrom(s: string, c: char, i: nat): (j: nat)
    requires i <= |s|
    ensures i <= j <= |s| && (j < |s| ==> s[j] == c) && forall k :: i <= k < j ==> s[k] != c
    decreases |s| - i
  {
    if i == |s| || s[i] == c then i else IndexFrom(s, c, i + 1)
  }

  /** The first two fields between colons, if there are two. */
  function Fields(s: string): Option<(string, string)> {
    var colon := IndexFrom(s, ':', 0);
    if colon == |s| then None else Some((s[..colon], s[colon + 1..IndexFrom(s, ':', colon + 1)]))
  }

  /** Hours and minutes to a minute count; None where the source gets NaN. */
  function ParseTime(s: string): Option<nat> {
    var fields := Fields(s);
    if fields.None? then None
    else
      var hours := ParseNumber(fields.value.0);
      var mins := ParseNumber(fields.value.1);
      if hours.None? || mins.None? then None else Some(hours.value * 60 + mins.value)
  }

  lemma IndexIs(s: string, c: char, i: nat, j: nat)
    requires i <= j <= |s| && (j < |s| ==> s[j] == c) && forall k :: i <= k < j ==> s[k] != c
    ensures IndexFrom(s, c, i) == j
  {
    var found := IndexFrom(s, c, i);
    assert !(found < j) && !(j < found);
  }

  lemma FieldsOf(h: string, m: string)
    requires forall i :: 0 <= i < |h| ==> h[i] != ':'
    requires forall i :: 0 <= i < |m| ==> m[i] != ':'
    ensures Fields(h + ":" + m) == Some((h, m))
  {
    var s := h + ":" + m;
    assert forall i :: 0 <= i < |h| ==> s[i] == h[i];
    assert forall i :: |h| < i < |s| ==> s[i] == m[i - |h| - 1];
    IndexIs(s, ':', 0, |h|);
    IndexIs(s, ':', |h| + 1, |s|);
    assert s[..|h|] == h && s[|h| + 1..|s|] == m;
  }

  /** Parsing undoes formatting, for every minute count. */
  lemma ParseFormat(mins: nat)
    ensures ParseTime(FormatMinutes(mins)) == Some(mins)
  {
    PadKeepsNumber(mins / 60);
    PadKeepsNumber(mins % 60);
    FieldsOf(PadStart2(Numeral(mins / 60)), PadStart2(Numeral(mins % 60)));
  }

  /** Two digits, a colon, two digits. */
  lemma ClockText(mins: nat)
    requires mins < 100 * 60
    ensures FormatMinutes(mins)
         == [Digit(mins / 600), Digit(mins / 60 % 10), ':', Digit(mins % 60 / 10), Digit(mins % 10)]
  {
    assert mins / 60 / 10 == mins / 600 && mins % 60 % 10 == mins % 10;
    TwoDigits(mins / 60);
    TwoDigits(mins % 60);
  }

  lemma TwoDigits(n: nat)
    requires n < 100
    ensures PadStart2(Numeral(n)) == [Digit(n / 10), Digit(n % 10)]
  {
    if n >= 10 {
      assert Numeral(n / 10) == [Digit(n / 10)];
    }
  }
}
