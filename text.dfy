/** String helpers that stand for the Python built-ins the solvers use:
    `str.split(sep)`, `str.split()`, `str.strip(chars)` and `int(...)`. */
module Text {
  import opened Wrappers

  /** `s.split(sep)`: the pieces between the leftmost non-overlapping
      occurrences of `sep`. */
  function Split(s: string, sep: string): (parts: seq<string>)
    requires sep != []
    ensures |parts| >= 1
    decreases |s|
  {
    if |s| < |sep| then [s]
    else if s[..|sep|] == sep then [""] + Split(s[|sep|..], sep)
    else
      var rest := Split(s[1..], sep);
      [[s[0]] + rest[0]] + rest[1..]
  }

  /** `sep.join(parts)`. */
  function Join(parts: seq<string>, sep: string): string
    decreases |parts|
  {
    if |parts| == 0 then ""
    else if |parts| == 1 then parts[0]
    else parts[0] + sep + Join(parts[1..], sep)
  }

  /** Splitting and joining again gives back the original string. */
  lemma {:induction false} JoinSplit(s: string, sep: string)
    requires sep != []
    ensures Join(Split(s, sep), sep) == s
    decreases |s|
  {
    if |s| < |sep| {
      assert Split(s, sep) == [s];
    } else if s[..|sep|] == sep {
      var rest := Split(s[|sep|..], sep);
      assert Split(s, sep) == [""] + rest;
      JoinSplit(s[|sep|..], sep);
      JoinAfterEmpty(rest, sep);
      assert s == sep + s[|sep|..];
    } else {
      var rest := Split(s[1..], sep);
      assert Split(s, sep) == [[s[0]] + rest[0]] + rest[1..];
      JoinSplit(s[1..], sep);
      JoinPrepend(s[0], rest, sep);
      assert s == [s[0]] + s[1..];
    }
  }

  /** An empty first piece contributes only the separator. */
  lemma JoinAfterEmpty(parts: seq<string>, sep: string)
    requires |parts| >= 1
    ensures Join([""] + parts, sep) == sep + Join(parts, sep)
  {
    var joined := [""] + parts;
    assert joined[0] == "" && joined[1..] == parts;
  }

  /** Putting a character in front of the first piece puts it in front of
      the joined string. */
  lemma JoinPrepend(c: char, parts: seq<string>, sep: string)
    requires |parts| >= 1
    ensures Join([[c] + parts[0]] + parts[1..], sep) == [c] + Join(parts, sep)
  {
    var joined := [[c] + parts[0]] + parts[1..];
    assert joined[0] == [c] + parts[0] && joined[1..] == parts[1..];
    if |parts| > 1 {
      assert Join(joined, sep) == ([c] + parts[0]) + sep + Join(parts[1..], sep);
    }
  }

  /** Character `j` of `sep` differs from every character before it, so a
      string free of that character cannot hold an occurrence of `sep` that
      starts inside it. */
  predicate MarksSeparator(sep: string, j: nat) {
    j < |sep| && forall i :: 0 <= i < j ==> sep[i] != sep[j]
  }

  /** A string free of character `j` of the separator splits into itself. */
  lemma {:induction false} SplitWithoutSeparator(a: string, sep: string, j: nat)
    requires j < |sep| && sep[j] !in a
    ensures Split(a, sep) == [a]
    decreases |a|
  {
    if |a| >= |sep| {
      assert a[..|sep|][j] == a[j];
      SplitWithoutSeparator(a[1..], sep, j);
      assert a == [a[0]] + a[1..];
    }
  }

  /** The first field before the separator is split off intact when it is
      free of the separator's marking character. */
  lemma {:induction false} SplitAtSeparator(a: string, sep: string, j: nat, b: string)
    requires MarksSeparator(sep, j) && sep[j] !in a
    ensures Split(a + sep + b, sep) == [a] + Split(b, sep)
    decreases |a|
  {
    var s := a + sep + b;
    if a == [] {
      assert s[..|sep|] == sep && s[|sep|..] == b;
    } else {
      assert s[..|sep|] != sep by {
        if j < |a| {
          assert s[..|sep|][j] == a[j];
        } else {
          assert s[..|sep|][j] == sep[j - |a|];
        }
      }
      assert s[1..] == a[1..] + sep + b;
      SplitAtSeparator(a[1..], sep, j, b);
      assert [s[0]] + a[1..] == a;
    }
  }

  /** Joining fields that are free of the separator's marking character and
      splitting again gives the fields back. */
  lemma {:induction false} SplitJoin(parts: seq<string>, sep: string, j: nat)
    requires MarksSeparator(sep, j) && parts != []
    requires forall i :: 0 <= i < |parts| ==> sep[j] !in parts[i]
    ensures Split(Join(parts, sep), sep) == parts
    decreases |parts|
  {
    if |parts| == 1 {
      SplitWithoutSeparator(parts[0], sep, j);
    } else {
      SplitJoin(parts[1..], sep, j);
      SplitAtSeparator(parts[0], sep, j, Join(parts[1..], sep));
    }
  }

  /** The non-empty strings of `parts`, in order. */
  function NonEmpty(parts: seq<string>): (r: seq<string>)
    ensures forall i :: 0 <= i < |r| ==> r[i] != []
    ensures |r| <= |parts|
  {
    if parts == [] then []
    else if parts[0] == [] then NonEmpty(parts[1..])
    else [parts[0]] + NonEmpty(parts[1..])
  }

  /** `s.split()`: the words of `s`, runs of spaces separating them (other
      white space is not modelled). */
  function Words(s: string): seq<string>
  {
    NonEmpty(Split(s, " "))
  }

  /** Words of two space-free words joined by one space. */
  lemma TwoWords(a: string, b: string)
    requires a != [] && b != [] && ' ' !in a && ' ' !in b
    ensures Words(a + " " + b) == [a, b]
  {
    SplitAtSeparator(a, " ", 0, b);
    SplitWithoutSeparator(b, " ", 0);
    assert Split(a + " " + b, " ") == [a, b];
    assert NonEmpty([b]) == [b];
    assert NonEmpty([a, b]) == [a] + NonEmpty([b]);
  }

  /** Words of three space-free words joined by single spaces. */
  lemma ThreeWords(a: string, b: string, c: string)
    requires a != [] && b != [] && c != [] && ' ' !in a && ' ' !in b && ' ' !in c
    ensures Words(a + " " + b + " " + c) == [a, b, c]
  {
    assert a + " " + b + " " + c == a + " " + (b + " " + c);
    SplitAtSeparator(a, " ", 0, b + " " + c);
    SplitAtSeparator(b, " ", 0, c);
    SplitWithoutSeparator(c, " ", 0);
    assert Split(a + " " + b + " " + c, " ") == [a, b, c];
    assert NonEmpty([c]) == [c];
    assert NonEmpty([b, c]) == [b] + NonEmpty([c]);
    assert NonEmpty([a, b, c]) == [a] + NonEmpty([b, c]);
  }

  /** A character found neither in the fields nor in the separator is not in
      their join. */
  lemma {:induction false} CharNotInJoin(c: char, parts: seq<string>, sep: string)
    requires c !in sep && forall i :: 0 <= i < |parts| ==> c !in parts[i]
    ensures c !in Join(parts, sep)
    decreases |parts|
  {
    if |parts| > 1 {
      CharNotInJoin(c, parts[1..], sep);
    }
  }

  /** `s.strip(chars)`: `s` without the leading and trailing characters that
      belong to `chars`. */
  function Strip(s: string, chars: set<char>): (r: string)
    ensures |r| <= |s|
    ensures r != [] ==> r[0] !in chars && r[|r| - 1] !in chars
  {
    StripEnd(StripStart(s, chars), chars)
  }

  function StripStart(s: string, chars: set<char>): (r: string)
    ensures |r| <= |s| && r == s[|s| - |r|..]
    ensures r != [] ==> r[0] !in chars
  {
    if s != [] && s[0] in chars then StripStart(s[1..], chars) else s
  }

  function StripEnd(s: string, chars: set<char>): (r: string)
    ensures |r| <= |s| && r == s[..|r|]
    ensures r != [] ==> r[|r| - 1] !in chars
  {
    if s != [] && s[|s| - 1] in chars then StripEnd(s[..|s| - 1], chars) else s
  }

  predicate IsDigit(c: char) { '0' <= c <= '9' }

  predicate AllDigits(s: string) { forall i :: 0 <= i < |s| ==> IsDigit(s[i]) }

  function DigitValue(c: char): (d: nat)
    requires IsDigit(c)
    ensures d < 10
  {
    c as int - '0' as int
  }

  function DigitChar(d: nat): (c: char)
    requires d < 10
    ensures IsDigit(c) && DigitValue(c) == d
  {
    ('0' as int + d) as char
  }

  /** The decimal value of a string of digits, most significant first. */
  function DigitsValue(s: string): nat
    requires AllDigits(s)
    decreases |s|
  {
    if s == [] then 0 else 10 * DigitsValue(s[..|s| - 1]) + DigitValue(s[|s| - 1])
  }

  /** `int(s)` for an unsigned decimal numeral; `None` where `int` raises. */
  function ParseNat(s: string): (r: Option<nat>)
    ensures r.Some? <==> s != [] && AllDigits(s)
  {
    if s != [] && AllDigits(s) then Some(DigitsValue(s)) else None
  }

  /** `int(s)` for a numeral with an optional sign. */
  function ParseInt(s: string): (r: Option<int>)
    ensures r.Some? ==> s != []
    ensures AllDigits(s) ==> r == (if s == [] then None else Some(DigitsValue(s)))
  {
    if s != [] && (s[0] == '-' || s[0] == '+') then
      match ParseNat(s[1..])
      case Some(n) =>
        var v: int := if s[0] == '-' then -(n as int) else n;
        Some(v)
      case None => None
    else
      match ParseNat(s)
      case Some(n) => Some(n)
      case None => None
  }

  /** The decimal numeral of `n`, as `str(n)` prints it. */
  function NatToString(n: nat): (s: string)
    ensures s != [] && AllDigits(s)
  {
    if n < 10 then [DigitChar(n)] else NatToString(n / 10) + [DigitChar(n % 10)]
  }

  /** The numeral of `i`, with a leading '-' when negative. */
  function IntToString(i: int): (s: string)
    ensures s != [] && ' ' !in s && ',' !in s
  {
    if i < 0 then "-" + NatToString(-i) else NatToString(i)
  }

  lemma {:induction false} ParseNatToString(n: nat)
    ensures ParseNat(NatToString(n)) == Some(n)
  {
    if n >= 10 {
      ParseNatToString(n / 10);
      var s := NatToString(n);
      assert s[..|s| - 1] == NatToString(n / 10);
      assert DigitsValue(s[..|s| - 1]) == n / 10;
      assert DigitValue(s[|s| - 1]) == n % 10;
      assert DigitsValue(s) == 10 * (n / 10) + n % 10;
    }
  }

  lemma ParseIntToString(i: int)
    ensures ParseInt(IntToString(i)) == Some(i)
  {
    if i < 0 {
      ParseNatToString(-i);
      assert ("-" + NatToString(-i))[1..] == NatToString(-i);
    } else {
      ParseNatToString(i);
    }
  }

  /** A numeral holds only digits and, when negative, a leading '-'. */
  lemma NumeralCharacters(i: int)
    ensures forall k :: 0 <= k < |IntToString(i)| ==> IntToString(i)[k] == '-' || IsDigit(IntToString(i)[k])
  {
    var s := IntToString(i);
    if i < 0 {
      var digits := NatToString(-i);
      assert s == "-" + digits;
      forall k | 0 <= k < |s| ensures s[k] == '-' || IsDigit(s[k]) {
        if k > 0 {
          assert s[k] == digits[k - 1];
        }
      }
    }
  }

  lemma NumeralHasNoSeparator(n: nat)
    ensures ' ' !in NatToString(n) && ',' !in NatToString(n) && '-' !in NatToString(n)
  {
    var s := NatToString(n);
    assert forall i :: 0 <= i < |s| ==> IsDigit(s[i]);
  }
}
