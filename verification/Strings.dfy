/** String operations of the Go standard library that the agent relies on, together
    with the order on byte strings that etcd ranges are defined by. */
module Strings {

  predicate HasPrefix(s: string, prefix: string) {
    prefix <= s
  }

  function TrimPrefix(s: string, prefix: string): string {
    if prefix <= s then s[|prefix|..] else s
  }

  /** strings.Split with a one-character separator: always at least one part. */
  function Split(s: string, sep: char): (parts: seq<string>)
    ensures |parts| >= 1
  {
    if s == "" then [""]
    else
      var rest := Split(s[1..], sep);
      if s[0] == sep then [""] + rest
      else [[s[0]] + rest[0]] + rest[1..]
  }

  function Join(parts: seq<string>, sep: char): string
    requires |parts| >= 1
  {
    if |parts| == 1 then parts[0] else parts[0] + [sep] + Join(parts[1..], sep)
  }

  /** The pieces of a split contain no separator and join back to the input. */
  lemma {:induction false} SplitThenJoin(s: string, sep: char)
    ensures Join(Split(s, sep), sep) == s
    ensures forall p :: p in Split(s, sep) ==> sep !in p
  {
    if s != "" {
      SplitThenJoin(s[1..], sep);
      var rest := Split(s[1..], sep);
      JoinEmptyFirst(rest, sep);
      JoinLongerFirst(s[0], rest, sep);
      assert s == [s[0]] + s[1..];
    }
  }

  lemma {:induction false} JoinEmptyFirst(parts: seq<string>, sep: char)
    requires |parts| >= 1
    ensures Join([""] + parts, sep) == [sep] + Join(parts, sep)
  {
    assert ([""] + parts)[1..] == parts;
  }

  lemma {:induction false} JoinLongerFirst(c: char, parts: seq<string>, sep: char)
    requires |parts| >= 1
    ensures Join([[c] + parts[0]] + parts[1..], sep) == [c] + Join(parts, sep)
  {
    var longer := [[c] + parts[0]] + parts[1..];
    assert longer[1..] == parts[1..];
    if |parts| > 1 {
      assert [c] + (parts[0] + [sep] + Join(parts[1..], sep)) == [c] + parts[0] + [sep] + Join(parts[1..], sep);
    }
  }

  lemma {:induction false} SplitSeparatorFree(s: string, sep: char)
    requires sep !in s
    ensures Split(s, sep) == [s]
  {
    if s != "" {
      SplitSeparatorFree(s[1..], sep);
      assert s == [s[0]] + s[1..];
    }
  }

  lemma {:induction false} SplitAtSeparator(head: string, tail: string, sep: char)
    requires sep !in head
    ensures Split(head + [sep] + tail, sep) == [head] + Split(tail, sep)
  {
    var s := head + [sep] + tail;
    if head == "" {
      assert s[1..] == tail;
    } else {
      SplitAtSeparator(head[1..], tail, sep);
      assert s[1..] == head[1..] + [sep] + tail;
      assert head == [head[0]] + head[1..];
    }
  }

  /** Splitting inverts joining: separator-free parts are recovered exactly. */
  lemma {:induction false} JoinThenSplit(parts: seq<string>, sep: char)
    requires |parts| >= 1
    requires forall p :: p in parts ==> sep !in p
    ensures Split(Join(parts, sep), sep) == parts
  {
    if |parts| == 1 {
      SplitSeparatorFree(parts[0], sep);
      assert parts == [parts[0]];
    } else {
      JoinThenSplit(parts[1..], sep);
      SplitAtSeparator(parts[0], Join(parts[1..], sep), sep);
      assert parts == [parts[0]] + parts[1..];
    }
  }

  /** A split gives just the separator-free pieces that join to the input. */
  lemma {:induction false} SplitExactly(s: string, sep: char, parts: seq<string>)
    requires |parts| >= 1
    ensures Split(s, sep) == parts <==> s == Join(parts, sep) && forall p :: p in parts ==> sep !in p
  {
    SplitThenJoin(s, sep);
    if forall p :: p in parts ==> sep !in p {
      JoinThenSplit(parts, sep);
    }
  }

  lemma {:induction false} PrefixThenRest(s: string, prefix: string, rest: string)
    ensures HasPrefix(s, prefix) && TrimPrefix(s, prefix) == rest <==> s == prefix + rest
  {
  }

  /** x is one of the fields that the separators cut s into, said by positions. */
  ghost predicate IsField(s: string, sep: char, x: string) {
    exists i, j :: FieldAt(s, sep, x, i, j)
  }

  ghost predicate FieldAt(s: string, sep: char, x: string, i: int, j: int) {
    && 0 <= i <= j <= |s|
    && x == s[i..j]
    && sep !in x
    && (i == 0 || s[i - 1] == sep)
    && (j == |s| || s[j] == sep)
  }

  /** The first part of a split ends at the first separator. */
  lemma {:induction false} FirstPart(s: string, sep: char)
    ensures var n := |Split(s, sep)[0]|;
      n <= |s| && Split(s, sep)[0] == s[..n] && sep !in s[..n] && (n == |s| || s[n] == sep)
  {
    if s != "" {
      FirstPart(s[1..], sep);
    }
  }

  /** Split returns exactly the fields, whatever the input. */
  lemma {:induction false} SplitFields(s: string, sep: char, x: string)
    ensures x in Split(s, sep) <==> IsField(s, sep, x)
    decreases |s|
  {
    FirstPart(s, sep);
    var n := |Split(s, sep)[0]|;
    if n == |s| {
      SplitSeparatorFree(s, sep);
      if x == s {
        assert FieldAt(s, sep, x, 0, n);
      }
    } else {
      var tail := s[n + 1..];
      assert s == s[..n] + [sep] + tail;
      SplitAtSeparator(s[..n], tail, sep);
      SplitFields(tail, sep, x);
      FieldsAfterFirst(s, sep, x, n);
    }
  }

  lemma {:induction false} FieldsAfterFirst(s: string, sep: char, x: string, n: nat)
    requires n < |s| && s[n] == sep && sep !in s[..n]
    ensures IsField(s, sep, x) <==> x == s[..n] || IsField(s[n + 1..], sep, x)
  {
    var tail := s[n + 1..];
    if x == s[..n] {
      assert FieldAt(s, sep, x, 0, n);
    } else if IsField(tail, sep, x) {
      var i, j :| FieldAt(tail, sep, x, i, j);
      assert FieldAt(s, sep, x, i + n + 1, j + n + 1);
    }
    if IsField(s, sep, x) {
      var i, j :| FieldAt(s, sep, x, i, j);
      FieldOfTail(s, sep, x, i, j, n);
    }
  }

  /** A field of s is its first one or a field of what follows the first separator. */
  lemma {:induction false} FieldOfTail(s: string, sep: char, x: string, i: int, j: int, n: nat)
    requires FieldAt(s, sep, x, i, j)
    requires n < |s| && s[n] == sep && sep !in s[..n]
    ensures x == s[..n] || IsField(s[n + 1..], sep, x)
  {
    SeparatorFree(s[..n], sep);
    SeparatorFree(x, sep);
    assert forall k :: 0 <= k < n ==> s[k] == s[..n][k];
    assert forall k :: i <= k < j ==> s[k] == x[k - i];
    if n < i {
      assert FieldAt(s[n + 1..], sep, x, i - n - 1, j - n - 1);
    }
  }

  lemma {:induction false} SeparatorFree(s: string, sep: char)
    requires sep !in s
    ensures forall k :: 0 <= k < |s| ==> s[k] != sep
  {
  }

  /** The bytewise order on keys. */
  predicate Less(a: string, b: string) {
    b != "" && (a == "" || a[0] < b[0] || (a[0] == b[0] && Less(a[1..], b[1..])))
  }

  lemma {:induction false} LessIsTotal(a: string, b: string)
    ensures Less(a, b) || a == b || Less(b, a)
    ensures !(Less(a, b) && Less(b, a))
    ensures !Less(a, a)
  {
    if a != "" && b != "" {
      LessIsTotal(a[1..], b[1..]);
      assert a == [a[0]] + a[1..] && b == [b[0]] + b[1..];
    }
    if a != "" {
      LessIsTotal(a[1..], a[1..]);
    }
  }

  lemma {:induction false} LessTransitive(a: string, b: string, c: string)
    requires Less(a, b) && Less(b, c)
    ensures Less(a, c)
  {
    if a != "" && a[0] == b[0] == c[0] {
      LessTransitive(a[1..], b[1..], c[1..]);
    }
  }

  /** A common prefix does not matter to the order. */
  lemma {:induction false} LessAfterPrefix(prefix: string, a: string, b: string)
    ensures Less(prefix + a, prefix + b) == Less(a, b)
  {
    if prefix == "" {
      assert prefix + a == a && prefix + b == b;
    } else {
      LessAfterPrefix(prefix[1..], a, b);
      assert (prefix + a)[1..] == prefix[1..] + a;
      assert (prefix + b)[1..] == prefix[1..] + b;
    }
  }

  /** Formatting with %d. */
  function Decimal(n: nat): (s: string)
    ensures s != ""
  {
    if n < 10 then [Digit(n)] else Decimal(n / 10) + [Digit(n % 10)]
  }

  /** Formatting with %x. */
  function Hex(n: nat): (s: string)
    ensures s != ""
  {
    if n < 16 then [Digit(n)] else Hex(n / 16) + [Digit(n % 16)]
  }

  function Digit(d: nat): char
    requires d < 16
  {
    "0123456789abcdef"[d]
  }

  lemma {:induction false} DecimalInjective(a: nat, b: nat)
    requires Decimal(a) == Decimal(b)
    ensures a == b
  {
    DigitInjective(a % 10, b % 10);
    var s := Decimal(a);
    assert s[|s| - 1] == Digit(a % 10) == Digit(b % 10);
    if a >= 10 && b >= 10 {
      assert Decimal(a / 10) == s[..|s| - 1] == Decimal(b / 10);
      DecimalInjective(a / 10, b / 10);
    }
  }

  function DigitValue(c: char): int {
    c as int - '0' as int
  }

  /** Reading decimal digits. */
  function Value(s: string): int {
    if s == "" then 0 else 10 * Value(s[..|s| - 1]) + DigitValue(s[|s| - 1])
  }

  /** The decimal text of a number reads back as the number and has no leading zero. */
  lemma {:induction false} DecimalReadsBack(n: nat)
    ensures Value(Decimal(n)) == n
    ensures Decimal(n)[0] == '0' ==> n == 0
  {
    if n >= 10 {
      DecimalReadsBack(n / 10);
      assert Decimal(n)[..|Decimal(n)| - 1] == Decimal(n / 10);
    } else {
      assert Decimal(n)[..0] == "";
    }
  }

  function HexDigitValue(c: char): int {
    if '0' <= c <= '9' then c as int - '0' as int else c as int - 'a' as int + 10
  }

  /** Reading hexadecimal digits in lower case. */
  function HexValue(s: string): int {
    if s == "" then 0 else 16 * HexValue(s[..|s| - 1]) + HexDigitValue(s[|s| - 1])
  }

  lemma {:induction false} DigitReadsBack(d: nat)
    requires d < 16
    ensures HexDigitValue(Digit(d)) == d && (Digit(d) == '0' ==> d == 0)
  {
  }

  /** The hexadecimal text of a number reads back as the number and has no leading zero. */
  lemma {:induction false} HexReadsBack(n: nat)
    ensures HexValue(Hex(n)) == n
    ensures Hex(n)[0] == '0' ==> n == 0
  {
    DigitReadsBack(n % 16);
    if n >= 16 {
      HexReadsBack(n / 16);
      assert Hex(n)[..|Hex(n)| - 1] == Hex(n / 16);
    } else {
      assert Hex(n)[..0] == "";
    }
  }

  lemma {:induction false} DecimalHasDigits(n: nat, c: char)
    requires c in Decimal(n)
    ensures '0' <= c <= '9'
  {
    if n >= 10 && c in Decimal(n / 10) {
      DecimalHasDigits(n / 10, c);
    }
  }

  lemma {:induction false} DigitInjective(a: nat, b: nat)
    requires a < 16 && b < 16
    ensures Digit(a) == Digit(b) ==> a == b
  {
  }

  lemma {:induction false} HexIsAlphanumeric(n: nat, c: char)
    requires c in Hex(n)
    ensures '0' <= c <= '9' || 'a' <= c <= 'f'
  {
    if n >= 16 && c in Hex(n / 16) {
      HexIsAlphanumeric(n / 16, c);
    }
  }

  /** strings.Replace(s, old, "", -1): every occurrence removed, left to right. */
  function RemoveAll(s: string, sub: string): string
    requires sub != ""
  {
    if s == "" then ""
    else if sub <= s then RemoveAll(s[|sub|..], sub)
    else [s[0]] + RemoveAll(s[1..], sub)
  }

  /** sub starts in s at i. */
  predicate StartsAt(s: string, sub: string, i: int) {
    0 <= i <= |s| && sub <= s[i..]
  }

  lemma {:induction false} RemoveAllSkips(s: string, sub: string, i: nat)
    requires sub != "" && i <= |s| && forall j :: 0 <= j < i ==> !StartsAt(s, sub, j)
    ensures RemoveAll(s, sub) == s[..i] + RemoveAll(s[i..], sub)
  {
    if i == 0 {
      assert s[0..] == s && s[..0] == "";
    } else {
      assert !StartsAt(s, sub, 0) && s[0..] == s;
      var rest := s[1..];
      forall j | 0 <= j < i - 1
        ensures !StartsAt(rest, sub, j)
      {
        assert !StartsAt(s, sub, j + 1) && rest[j..] == s[j + 1..];
      }
      RemoveAllSkips(rest, sub, i - 1);
      assert rest[i - 1..] == s[i..];
      assert [s[0]] + (rest[..i - 1] + RemoveAll(s[i..], sub)) == s[..i] + RemoveAll(s[i..], sub);
    }
  }

  /** Replacing by nothing takes out the occurrences from the left, one after the other, without
      looking again at what has moved together. */
  lemma {:induction false} RemoveAllMeans(s: string, sub: string, i: nat)
    requires sub != "" && i <= |s| && forall j :: 0 <= j < i ==> !StartsAt(s, sub, j)
    ensures StartsAt(s, sub, i) ==> RemoveAll(s, sub) == s[..i] + RemoveAll(s[i + |sub|..], sub)
    ensures i == |s| ==> RemoveAll(s, sub) == s
  {
    RemoveAllSkips(s, sub, i);
    if StartsAt(s, sub, i) {
      assert s[i..] != "" && s[i..][|sub|..] == s[i + |sub|..];
    }
    assert i == |s| ==> s[..i] == s;
  }
}
