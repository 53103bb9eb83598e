/** String helpers the service relies on: JavaScript's `split` with a one-character separator,
    its inverse `Join`, a reversible escaping that keeps separators out of token fields, and
    decimal digits for numeric claims. */
module Text {
  import opened Base

  /** The fields of `parts` glued together with `sep`, as `parts.join(sep)`. */
  function Join(parts: seq<string>, sep: char): string
    requires |parts| >= 1
  {
    if |parts| == 1 then parts[0] else parts[0] + [sep] + Join(parts[1..], sep)
  }

  /** The pieces of `s` between occurrences of `sep`, as JavaScript's `s.split(sep)`:
      never empty, empty pieces kept, and `Join` gives `s` back. */
  function Split(s: string, sep: char): (parts: seq<string>)
    ensures |parts| >= 1
    ensures Join(parts, sep) == s
    ensures forall i :: 0 <= i < |parts| ==> sep !in parts[i]
    ensures sep !in s ==> parts == [s]
    decreases |s|
  {
    if s == [] then [""]
    else
      var rest := Split(s[1..], sep);
      if s[0] == sep then
        assert [sep] + s[1..] == s;
        [""] + rest
      else
        var first := [s[0]] + rest[0];
        assert ([first] + rest[1..])[1..] == rest[1..];
        assert [s[0]] + s[1..] == s;
        [first] + rest[1..]
  }

  /** Splitting a word followed by the separator peels that word off. */
  lemma {:induction false} SplitAfterWord(w: string, t: string, sep: char)
    requires sep !in w
    ensures Split(w + [sep] + t, sep) == [w] + Split(t, sep)
    decreases |w|
  {
    var s := w + [sep] + t;
    if w == [] {
      assert s == [sep] + t && s[1..] == t;
    } else {
      assert s[1..] == w[1..] + [sep] + t;
      SplitAfterWord(w[1..], t, sep);
      SplitCons(s, sep);
      assert [w[0]] + w[1..] == w;
    }
  }

  /** One step of `Split` on a string that starts with a non-separator. */
  lemma SplitCons(s: string, sep: char)
    requires s != [] && s[0] != sep
    ensures Split(s, sep) == [[s[0]] + Split(s[1..], sep)[0]] + Split(s[1..], sep)[1..]
  {
  }

  /** `Split` undoes `Join` when no field contains the separator. */
  lemma {:induction false} SplitJoin(parts: seq<string>, sep: char)
    requires |parts| >= 1
    requires forall i :: 0 <= i < |parts| ==> sep !in parts[i]
    ensures Split(Join(parts, sep), sep) == parts
    decreases |parts|
  {
    if |parts| > 1 {
      SplitJoin(parts[1..], sep);
      SplitAfterWord(parts[0], Join(parts[1..], sep), sep);
      assert [parts[0]] + parts[1..] == parts;
    }
  }

  /** A character kept out of every field and different from the separator is kept out of the join. */
  lemma {:induction false} JoinAvoids(parts: seq<string>, sep: char, c: char)
    requires |parts| >= 1 && c != sep
    requires forall i :: 0 <= i < |parts| ==> c !in parts[i]
    ensures c !in Join(parts, sep)
    decreases |parts|
  {
    if |parts| > 1 {
      JoinAvoids(parts[1..], sep, c);
    }
  }

  /* ---------- escaping of token fields ---------- */

  const EscapeMark := '~'

  /** The escape code of one character: the mark, the dot and the space become two-character codes. */
  function EscapeChar(c: char): string
  {
    if c == EscapeMark then [EscapeMark, EscapeMark]
    else if c == '.' then [EscapeMark, 'd']
    else if c == ' ' then [EscapeMark, 's']
    else [c]
  }

  /** `s` with every character escaped: the result holds neither a dot nor a space. */
  function Escape(s: string): (r: string)
    ensures '.' !in r && ' ' !in r
    ensures |r| >= |s|
  {
    if s == [] then [] else EscapeChar(s[0]) + Escape(s[1..])
  }

  /** The inverse of `Escape`: fails on an unknown or truncated code and on a raw dot or space. */
  function Unescape(s: string): (r: Option<string>)
    decreases |s|
  {
    if s == [] then Some([])
    else if s[0] == '.' || s[0] == ' ' then None
    else if s[0] != EscapeMark then
      match Unescape(s[1..])
      case Some(rest) => Some([s[0]] + rest)
      case None => None
    else if |s| < 2 then None
    else
      var c := if s[1] == EscapeMark then Some(EscapeMark)
               else if s[1] == 'd' then Some('.')
               else if s[1] == 's' then Some(' ')
               else None;
      match (c, Unescape(s[2..]))
      case (Some(ch), Some(rest)) => Some([ch] + rest)
      case _ => None
  }

  /** Escaping is undone by unescaping. */
  lemma {:induction false} UnescapeEscape(s: string)
    ensures Unescape(Escape(s)) == Some(s)
    decreases |s|
  {
    if s != [] {
      UnescapeEscape(s[1..]);
      var e := Escape(s);
      assert e == EscapeChar(s[0]) + Escape(s[1..]);
      if |EscapeChar(s[0])| == 2 {
        assert e[2..] == Escape(s[1..]);
      } else {
        assert e[1..] == Escape(s[1..]);
      }
      assert [s[0]] + s[1..] == s;
    }
  }

  /** Unescaping succeeds only on the escape of its result: each string has exactly one encoding. */
  lemma {:induction false} EscapeUnescape(s: string, t: string)
    requires Unescape(s) == Some(t)
    ensures Escape(t) == s
    decreases |s|
  {
    if s != [] {
      if s[0] != EscapeMark {
        EscapeUnescape(s[1..], t[1..]);
        assert [s[0]] + s[1..] == s;
      } else {
        EscapeUnescape(s[2..], t[1..]);
        assert s[..2] + s[2..] == s;
      }
    }
  }

  /* ---------- decimal digits ---------- */

  predicate IsDigit(c: char) { '0' <= c <= '9' }

  predicate AllDigits(s: string) { forall i :: 0 <= i < |s| ==> IsDigit(s[i]) }

  function DigitChar(d: nat): (c: char)
    requires d < 10
    ensures IsDigit(c)
  {
    ('0' as int + d) as char
  }

  /** The decimal numeral of `n`: only digits, no leading zero. */
  function NatToDigits(n: nat): (r: string)
    ensures |r| >= 1 && AllDigits(r)
    ensures r[0] == '0' ==> n == 0
  {
    if n < 10 then [DigitChar(n)] else NatToDigits(n / 10) + [DigitChar(n % 10)]
  }

  /** The value of a string of decimal digits. */
  function DigitsValue(s: string): nat
    requires AllDigits(s)
  {
    if s == [] then 0
    else DigitsValue(s[..|s| - 1]) * 10 + (s[|s| - 1] as int - '0' as int)
  }

  /** A numeral in canonical form: digits only, not empty, and no leading zero unless it is "0". */
  predicate Canonical(s: string)
  {
    |s| >= 1 && AllDigits(s) && (|s| > 1 ==> s[0] != '0')
  }

  /** Reads back a canonical numeral; anything else is rejected. */
  function ParseNat(s: string): (r: Option<nat>)
  {
    if Canonical(s) then Some(DigitsValue(s)) else None
  }

  /** Reading back the numeral of `n` gives `n`. */
  lemma {:induction false} ParseNatDigits(n: nat)
    ensures ParseNat(NatToDigits(n)) == Some(n)
  {
    DigitsValueOfDigits(n);
  }

  lemma {:induction false} DigitsValueOfDigits(n: nat)
    ensures DigitsValue(NatToDigits(n)) == n
  {
    if n >= 10 {
      DigitsValueOfDigits(n / 10);
      var s := NatToDigits(n);
      assert s[..|s| - 1] == NatToDigits(n / 10);
    }
  }

  /** A canonical numeral of more than one digit has a positive value. */
  lemma {:induction false} CanonicalPositive(s: string)
    requires Canonical(s) && s[0] != '0'
    ensures DigitsValue(s) > 0
    decreases |s|
  {
    if |s| > 1 {
      var init := s[..|s| - 1];
      assert init[0] == s[0];
      CanonicalPositive(init);
    }
  }

  /** A numeral is parsed only when it is the numeral of its value: each number has one encoding. */
  lemma {:induction false} DigitsParseNat(s: string, n: nat)
    requires ParseNat(s) == Some(n)
    ensures NatToDigits(n) == s
    decreases |s|
  {
    if |s| > 1 {
      var init := s[..|s| - 1];
      assert init[0] == s[0];
      CanonicalPositive(init);
      DigitsParseNat(init, DigitsValue(init));
      assert s == init + [s[|s| - 1]];
    }
  }
}
