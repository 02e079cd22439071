/** String operations of the Rust standard library, and what is said of a string at an offset. */
module Text {
  import opened Results

  // ---------------------------------------------------------------- white space

  /** The characters with the Unicode property White_Space. */
  predicate IsWhitespace(c: char) {
    var n := c as int;
    || 0x09 <= n <= 0x0D || n == 0x20 || n == 0x85 || n == 0xA0 || n == 0x1680
    || 0x2000 <= n <= 0x200A || n == 0x2028 || n == 0x2029 || n == 0x202F || n == 0x205F || n == 0x3000
  }

  function TrimStart(s: string): string {
    if s != "" && IsWhitespace(s[0]) then TrimStart(s[1..]) else s
  }

  function TrimEnd(s: string): string {
    if s != "" && IsWhitespace(s[|s| - 1]) then TrimEnd(s[..|s| - 1]) else s
  }

  function Trim(s: string): string {
    TrimEnd(TrimStart(s))
  }

  /** No white space at either end. */
  predicate IsTrimmed(s: string) {
    s == "" || (!IsWhitespace(s[0]) && !IsWhitespace(s[|s| - 1]))
  }

  lemma {:induction false} TrimEndEnds(s: string)
    ensures TrimEnd(s) <= s
    ensures TrimEnd(s) != "" ==> !IsWhitespace(TrimEnd(s)[|TrimEnd(s)| - 1])
  {
    if s != "" && IsWhitespace(s[|s| - 1]) {
      TrimEndEnds(s[..|s| - 1]);
    }
  }

  lemma {:induction false} TrimStartStarts(s: string)
    ensures TrimStart(s) != "" ==> !IsWhitespace(TrimStart(s)[0])
  {
    if s != "" && IsWhitespace(s[0]) {
      TrimStartStarts(s[1..]);
    }
  }

  /** Trimming gives a trimmed string, and leaves exactly the trimmed strings alone. */
  lemma TrimTrims(s: string)
    ensures IsTrimmed(Trim(s))
    ensures Trim(s) == s <==> IsTrimmed(s)
  {
    TrimStartStarts(s);
    TrimEndEnds(TrimStart(s));
  }

  /** What follows the key of a line is its value. */
  lemma TrimAfterSpace(value: string)
    requires value != "" && IsTrimmed(value)
    ensures Trim(" " + value) == value
  {
    assert (" " + value)[1..] == value;
    assert TrimStart(" " + value) == TrimStart(value) == value;
  }

  // ---------------------------------------------------------------- searching

  function FirstWhitespace(s: string): (n: nat)
    ensures n <= |s|
  {
    if s == "" || IsWhitespace(s[0]) then 0 else 1 + FirstWhitespace(s[1..])
  }

  lemma {:induction false} FirstWhitespaceAfter(key: string, rest: string)
    requires forall c <- key :: !IsWhitespace(c)
    requires rest == "" || IsWhitespace(rest[0])
    ensures FirstWhitespace(key + rest) == |key|
  {
    if key == "" {
      assert key + rest == rest;
    } else {
      assert (key + rest)[1..] == key[1..] + rest;
      FirstWhitespaceAfter(key[1..], rest);
    }
  }

  /** The first `c` at or after `i`, or the end. */
  function IndexOf(s: string, i: nat, c: char): (n: nat)
    requires i <= |s|
    ensures i <= n <= |s| && (n < |s| ==> s[n] == c)
    decreases |s| - i
  {
    if i == |s| || s[i] == c then i else IndexOf(s, i + 1, c)
  }

  lemma {:induction false} FindsFirst(s: string, i: nat, c: char, n: nat)
    requires i <= n <= |s| && (n < |s| ==> s[n] == c) && forall k :: i <= k < n ==> s[k] != c
    ensures IndexOf(s, i, c) == n
    decreases n - i
  {
    if i < n {
      FindsFirst(s, i + 1, c, n);
    }
  }

  lemma {:induction false} IndexFinds(s: string, i: nat, c: char)
    requires i <= |s|
    ensures IndexOf(s, i, c) < |s| <==> c in s[i..]
    ensures c !in s[i..IndexOf(s, i, c)]
    decreases |s| - i
  {
    if i < |s| && s[i] != c {
      IndexFinds(s, i + 1, c);
      assert s[i..] == [s[i]] + s[i + 1..];
      assert s[i..IndexOf(s, i, c)] == [s[i]] + s[i + 1..IndexOf(s, i, c)];
    }
  }

  // ---------------------------------------------------------------- a text at an offset

  predicate At(s: string, i: nat, text: string) {
    i + |text| <= |s| && s[i..i + |text|] == text
  }

  lemma AtSplits(s: string, i: nat, a: string, b: string)
    requires At(s, i, a + b)
    ensures At(s, i, a) && At(s, i + |a|, b)
  {
    assert s[i..i + |a|] == s[i..i + |a + b|][..|a|];
    assert s[i + |a|..i + |a| + |b|] == s[i..i + |a + b|][|a|..];
  }

  lemma AtChar(s: string, i: nat, text: string, k: nat)
    requires At(s, i, text) && k < |text|
    ensures s[i + k] == text[k]
  {
    assert s[i..i + |text|][k] == s[i + k];
  }

  // ---------------------------------------------------------------- lines

  function StripSuffix(s: string, c: char): string {
    if s != "" && s[|s| - 1] == c then s[..|s| - 1] else s
  }

  /** Each line without its line end, which is a line feed with or without a carriage return. */
  function Lines(s: string): seq<string> {
    if s == "" then []
    else
      var n := IndexOf(s, 0, '\n');
      if n == |s| then [s] else [StripSuffix(s[..n], '\r')] + Lines(s[n + 1..])
  }

  lemma LinesOfLine(line: string, rest: string)
    requires '\n' !in line && '\r' !in line
    ensures Lines(line + "\n" + rest) == [line] + Lines(rest)
  {
    var s := line + "\n" + rest;
    assert s[|line|] == '\n';
    assert forall k :: 0 <= k < |line| ==> s[k] == line[k] && line[k] in line;
    FindsFirst(s, 0, '\n', |line|);
    assert s[..|line|] == line;
    assert s[|line| + 1..] == rest;
  }

  // ---------------------------------------------------------------- numbers

  function Digit(n: nat): char
    requires n < 10
  {
    '0' + n as char
  }

  /** How an unsigned integer is displayed. */
  function Decimal(n: nat): string {
    if n < 10 then [Digit(n)] else Decimal(n / 10) + [Digit(n % 10)]
  }

  predicate IsDigit(c: char) {
    '0' <= c <= '9'
  }

  function DigitsValue(s: string): nat
    requires forall c <- s :: IsDigit(c)
  {
    if s == "" then 0
    else
      assert IsDigit(s[|s| - 1]);
      10 * DigitsValue(s[..|s| - 1]) + (s[|s| - 1] as int - '0' as int)
  }

  /** Parsing as an unsigned integer of at most `max`: one plus sign may come first. */
  function ParseUnsigned(s: string, max: nat): Option<nat> {
    var digits := if s != "" && s[0] == '+' then s[1..] else s;
    if digits == "" || exists c <- digits :: !IsDigit(c) then None
    else if DigitsValue(digits) > max then None
    else Some(DigitsValue(digits))
  }

  lemma {:induction false} DecimalDigits(n: nat)
    ensures Decimal(n) != "" && forall c <- Decimal(n) :: IsDigit(c)
    ensures DigitsValue(Decimal(n)) == n
  {
    if n >= 10 {
      DecimalDigits(n / 10);
      var s := Decimal(n);
      assert s[..|s| - 1] == Decimal(n / 10);
    } else {
      assert Decimal(n) == [Digit(n)];
      assert Decimal(n)[..0] == "";
    }
  }

  lemma ParseDecimal(n: nat, max: nat)
    requires n <= max
    ensures ParseUnsigned(Decimal(n), max) == Some(n)
  {
    DecimalDigits(n);
    assert Decimal(n)[0] in Decimal(n);
  }
}
