/** The string primitives the scripts rely on: `String.prototype.split`
    with a one-character separator, the whitespace tokenisation behind
    `Element.classList`, and the decimal rendering of a count. */
module Text {

  /** `s.split(sep)` for a one-character separator: the pieces between
      separators, keeping empty pieces, never an empty result. */
  function Split(s: string, sep: char): (parts: seq<string>)
    ensures |parts| >= 1
    ensures forall k :: 0 <= k < |parts| ==> sep !in parts[k]
    decreases |s|
  {
    if |s| == 0 then [""]
    else
      var rest := Split(s[1..], sep);
      if s[0] == sep then [""] + rest
      else [[s[0]] + rest[0]] + rest[1..]
  }

  /** `parts.join(sep)`, the inverse of `Split`. */
  function Join(parts: seq<string>, sep: char): string
    requires |parts| >= 1
  {
    if |parts| == 1 then parts[0] else parts[0] + [sep] + Join(parts[1..], sep)
  }

  /** Splitting a string and joining the pieces gives the string back. */
  lemma {:induction false} JoinSplit(s: string, sep: char)
    ensures Join(Split(s, sep), sep) == s
    decreases |s|
  {
    if |s| > 0 {
      JoinSplit(s[1..], sep);
      var rest := Split(s[1..], sep);
      if s[0] == sep {
        assert Split(s, sep) == [""] + rest;
        assert ([""] + rest)[1..] == rest;
      } else {
        var parts := Split(s, sep);
        assert parts == [[s[0]] + rest[0]] + rest[1..];
        if |rest| == 1 {
          assert s == [s[0]] + s[1..];
        } else {
          assert parts[1..] == rest[1..];
          assert Join(rest, sep) == rest[0] + [sep] + Join(rest[1..], sep);
          assert s == [s[0]] + s[1..];
        }
      }
    }
  }

  /** A separator-free prefix is glued onto the first piece of what follows it. */
  lemma {:induction false} SplitPrefix(w: string, t: string, sep: char)
    requires sep !in w
    ensures Split(w + t, sep) == [w + Split(t, sep)[0]] + Split(t, sep)[1..]
    decreases |w|
  {
    if |w| > 0 {
      SplitPrefix(w[1..], t, sep);
      assert (w + t)[1..] == w[1..] + t;
      assert (w + t)[0] == w[0];
      assert [w[0]] + (w[1..] + Split(t, sep)[0]) == w + Split(t, sep)[0];
    } else {
      assert w + t == t;
      assert w + Split(t, sep)[0] == Split(t, sep)[0];
      assert Split(t, sep) == [Split(t, sep)[0]] + Split(t, sep)[1..];
    }
  }

  /** Joining separator-free pieces and splitting the result gives the pieces back. */
  lemma {:induction false} SplitJoin(parts: seq<string>, sep: char)
    requires |parts| >= 1
    requires forall k :: 0 <= k < |parts| ==> sep !in parts[k]
    ensures Split(Join(parts, sep), sep) == parts
    decreases |parts|
  {
    if |parts| == 1 {
      SplitPrefix(parts[0], "", sep);
      assert parts[0] + "" == parts[0];
    } else {
      var tail := Join(parts[1..], sep);
      SplitJoin(parts[1..], sep);
      assert Split([sep] + tail, sep) == [""] + Split(tail, sep) by {
        assert ([sep] + tail)[1..] == tail;
      }
      SplitPrefix(parts[0], [sep] + tail, sep);
      assert Join(parts, sep) == parts[0] + ([sep] + tail);
      assert Split([sep] + tail, sep)[0] == "";
      assert Split([sep] + tail, sep)[1..] == parts[1..];
      assert parts[0] + "" == parts[0];
      assert parts == [parts[0]] + parts[1..];
    }
  }

  /** The ASCII whitespace that separates the tokens of a class attribute. */
  predicate IsAsciiSpace(c: char) {
    c == ' ' || c == '\t' || c == '\n' || c == '\U{000C}' || c == '\r'
  }

  /** The tokens of `s` (the class list of a class attribute `s`): maximal
      runs of non-whitespace, in order. */
  function Tokens(s: string): seq<string> {
    TokensFrom(s, "")
  }

  /** Tokenises `s` when the token `current` has already been started. */
  function TokensFrom(s: string, current: string): (ts: seq<string>)
    ensures forall k :: 0 <= k < |ts| ==> ts[k] != ""
    decreases |s|
  {
    if |s| == 0 then
      (if current == "" then [] else [current])
    else if IsAsciiSpace(s[0]) then
      (if current == "" then [] else [current]) + TokensFrom(s[1..], "")
    else
      TokensFrom(s[1..], current + [s[0]])
  }

  /** A class attribute holding one word has exactly that word as its class list. */
  lemma {:induction false} TokensOfWord(w: string)
    requires w != ""
    requires forall k :: 0 <= k < |w| ==> !IsAsciiSpace(w[k])
    ensures Tokens(w) == [w]
  {
    TokensFromWord(w, "");
    assert "" + w == w;
  }

  /** A run without spaces extends the token being read. */
  lemma {:induction false} TokensFromSkip(w: string, rest: string, current: string)
    requires forall k :: 0 <= k < |w| ==> !IsAsciiSpace(w[k])
    ensures TokensFrom(w + rest, current) == TokensFrom(rest, current + w)
    decreases |w|
  {
    if |w| == 0 {
      assert w + rest == rest;
      assert current + w == current;
    } else {
      assert (w + rest)[1..] == w[1..] + rest;
      TokensFromSkip(w[1..], rest, current + [w[0]]);
      assert current + [w[0]] + w[1..] == current + w by {
        assert w == [w[0]] + w[1..];
      }
    }
  }

  /** A class attribute holding two words separated by a space lists both. */
  lemma TokensOfTwoWords(a: string, b: string)
    requires a != "" && forall k :: 0 <= k < |a| ==> !IsAsciiSpace(a[k])
    requires b != "" && forall k :: 0 <= k < |b| ==> !IsAsciiSpace(b[k])
    ensures Tokens(a + " " + b) == [a, b]
  {
    TokensFromSkip(a, " " + b, "");
    assert a + " " + b == a + (" " + b);
    assert "" + a == a;
    assert (" " + b)[1..] == b;
    TokensFromWord(b, "");
    assert "" + b == b;
  }

  lemma {:induction false} TokensFromWord(w: string, current: string)
    requires current + w != ""
    requires forall k :: 0 <= k < |w| ==> !IsAsciiSpace(w[k])
    ensures TokensFrom(w, current) == [current + w]
    decreases |w|
  {
    if |w| == 0 {
      assert current + w == current;
    } else {
      TokensFromWord(w[1..], current + [w[0]]);
      assert current + [w[0]] + w[1..] == current + w by {
        assert w == [w[0]] + w[1..];
      }
    }
  }

  predicate IsDigit(c: char) {
    '0' <= c <= '9'
  }

  function DigitChar(d: nat): (c: char)
    requires d < 10
    ensures IsDigit(c)
  {
    (48 + d) as char
  }

  function DigitValue(c: char): (d: nat)
    requires IsDigit(c)
    ensures d < 10
  {
    (c as int) - ('0' as int)
  }

  /** The decimal numeral JavaScript produces when a count is concatenated to a string. */
  function NatToString(n: nat): (s: string)
    ensures |s| >= 1
    ensures forall k :: 0 <= k < |s| ==> IsDigit(s[k])
    ensures |s| > 1 ==> s[0] != '0'
    decreases n
  {
    if n < 10 then [DigitChar(n)] else NatToString(n / 10) + [DigitChar(n % 10)]
  }

  /** The value of a numeral, the inverse of `NatToString`. */
  function ParseNat(s: string): nat
    requires forall k :: 0 <= k < |s| ==> IsDigit(s[k])
    decreases |s|
  {
    if |s| == 0 then 0 else ParseNat(s[..|s| - 1]) * 10 + DigitValue(s[|s| - 1])
  }

  /** Reading back the numeral of a count gives the count. */
  lemma {:induction false} ParseNatToString(n: nat)
    ensures ParseNat(NatToString(n)) == n
    decreases n
  {
    if n >= 10 {
      ParseNatToString(n / 10);
      var s := NatToString(n);
      assert s[..|s| - 1] == NatToString(n / 10);
    }
  }

  /** The longest prefix of s made of decimal digits. */
  function DigitRun(s: string): (d: string)
    ensures |d| <= |s| && d == s[..|d|]
    ensures forall k :: 0 <= k < |d| ==> IsDigit(d[k])
    ensures |d| < |s| ==> !IsDigit(s[|d|])
    decreases |s|
  {
    if |s| == 0 || !IsDigit(s[0]) then "" else [s[0]] + DigitRun(s[1..])
  }

  /** A numeral followed by a non-digit is read back whole. */
  lemma {:induction false} DigitRunStops(a: string, b: string)
    requires forall k :: 0 <= k < |a| ==> IsDigit(a[k])
    requires |b| > 0 && !IsDigit(b[0])
    ensures DigitRun(a + b) == a
    decreases |a|
  {
    if |a| == 0 {
      assert a + b == b;
    } else {
      assert (a + b)[1..] == a[1..] + b;
      DigitRunStops(a[1..], b);
      assert a == [a[0]] + a[1..];
    }
  }
}
