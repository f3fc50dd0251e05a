/** Identifiers (src/types.rs): validation, `MessageId::scoped`, and the byte order ids sort and lock in. */
module Ids {
  import opened Results

  datatype InvalidId =
    | Empty
    | TooLong(len: nat, max: nat)
    | ScopeContainsSeparator
    | SurroundingWhitespace

  /** An inbox row's primary key. */
  datatype Key = Key(consumer: string, id: string)

  const MESSAGE_MAX_LEN: nat := 512

  // ---------------------------------------------------------------- UTF-8

  /** The UTF-8 bytes of one character. */
  function Utf8Char(c: char): (b: seq<nat>)
    ensures 1 <= |b| <= 4
  {
    var n := c as int;
    if n < 0x80 then [n]
    else if n < 0x800 then [0xC0 + n / 64, 0x80 + n % 64]
    else if n < 0x10000 then [0xE0 + n / 4096, 0x80 + (n / 64) % 64, 0x80 + n % 64]
    else [0xF0 + n / 262144, 0x80 + (n / 4096) % 64, 0x80 + (n / 64) % 64, 0x80 + n % 64]
  }

  function Utf8(s: string): seq<nat> {
    if s == [] then [] else Utf8Char(s[0]) + Utf8(s[1..])
  }

  /** `str::len`: bytes, not characters. */
  function ByteLen(s: string): nat { |Utf8(s)| }

  lemma {:induction false} Utf8Concat(a: string, b: string)
    ensures Utf8(a + b) == Utf8(a) + Utf8(b)
  {
    if a == [] {
      assert a + b == b;
    } else {
      assert (a + b)[0] == a[0] && (a + b)[1..] == a[1..] + b;
      Utf8Concat(a[1..], b);
    }
  }

  /** Widths by range, as section 3 of RFC 3629 lays them out; the lead byte tells the width. */
  lemma CharWidth(c: char)
    ensures var n, b := c as int, Utf8Char(c);
            && |b| == (if n < 0x80 then 1 else if n < 0x800 then 2 else if n < 0x10000 then 3 else 4)
            && (if |b| == 1 then b[0] < 0x80 else if |b| == 2 then 0xC0 <= b[0] < 0xE0
                else if |b| == 3 then 0xE0 <= b[0] < 0xF0 else 0xF0 <= b[0] < 0xF8)
            && forall i :: 0 < i < |b| ==> 0x80 <= b[i] < 0xC0
  {
  }

  /** The number in the payload bits of one encoded character. */
  function Payload(b: seq<nat>): nat
    requires 1 <= |b| <= 4
  {
    if |b| == 1 then b[0]
    else if |b| == 2 then b[0] % 0x20 * 64 + b[1] % 0x40
    else if |b| == 3 then (b[0] % 0x10 * 64 + b[1] % 0x40) * 64 + b[2] % 0x40
    else ((b[0] % 0x08 * 64 + b[1] % 0x40) * 64 + b[2] % 0x40) * 64 + b[3] % 0x40
  }

  lemma SixBitSplit(n: nat)
    ensures n / 64 * 64 + n % 64 == n && (0x80 + n % 64) % 0x40 == n % 64
  {
  }

  /** Encoding loses nothing: the payload bits are the code point. */
  lemma PayloadIsCodePoint(c: char)
    ensures Payload(Utf8Char(c)) == c as int
  {
    var n, b := c as int, Utf8Char(c);
    LeadBits(n);
    HighDigits(n);
    SixBitSplit(n);
    if |b| >= 3 {
      SixBitSplit(n / 64);
      if |b| == 4 { SixBitSplit(n / 64 / 64); }
    }
  }

  lemma LeadBits(n: nat)
    ensures n < 0x800 ==> (0xC0 + n / 64) % 0x20 == n / 64
    ensures n < 0x10000 ==> (0xE0 + n / 4096) % 0x10 == n / 4096
    ensures n < 0x200000 ==> (0xF0 + n / 262144) % 0x08 == n / 262144
  {
  }

  /** Lengths are in bytes: each character counts for its width. */
  lemma LengthCountsBytes(c: char, s: string)
    ensures var n := c as int;
            ByteLen([c] + s) ==
            ByteLen(s) + (if n < 0x80 then 1 else if n < 0x800 then 2 else if n < 0x10000 then 3 else 4)
  {
    assert ([c] + s)[1..] == s;
    CharWidth(c);
  }

  // ----------------------------------------------------------- byte order

  /** Lexicographic order; a proper prefix comes first. */
  predicate LexLess(a: seq<nat>, b: seq<nat>) {
    b != [] && (a == [] || a[0] < b[0] || (a[0] == b[0] && LexLess(a[1..], b[1..])))
  }

  /** The order `str` compares in and backends lock in: by UTF-8 bytes. */
  predicate IdLess(a: string, b: string) {
    LexLess(Utf8(a), Utf8(b))
  }

  function CodePoints(s: string): seq<nat> {
    if s == [] then [] else [s[0] as int] + CodePoints(s[1..])
  }

  lemma {:induction false} LexLessIrreflexive(a: seq<nat>)
    ensures !LexLess(a, a)
  {
    if a != [] { LexLessIrreflexive(a[1..]); }
  }

  /** A proper prefix comes before what it starts. */
  lemma {:induction false} PrefixComesFirst(a: string, b: string)
    requires b != []
    ensures IdLess(a, a + b)
  {
    Utf8Concat(a, b);
    LexLessSkipsPrefix(Utf8(a), [], Utf8(b));
    assert Utf8(a) + [] == Utf8(a);
  }

  lemma {:induction false} LexLessTransitive(a: seq<nat>, b: seq<nat>, c: seq<nat>)
    requires LexLess(a, b) && LexLess(b, c)
    ensures LexLess(a, c)
  {
    if a != [] && a[0] == b[0] == c[0] {
      LexLessTransitive(a[1..], b[1..], c[1..]);
    }
  }

  /** A shared prefix never decides the order. */
  lemma {:induction false} LexLessSkipsPrefix(p: seq<nat>, a: seq<nat>, b: seq<nat>)
    ensures LexLess(p + a, p + b) <==> LexLess(a, b)
  {
    if p == [] {
      assert p + a == a && p + b == b;
    } else {
      assert (p + a)[1..] == p[1..] + a && (p + b)[1..] == p[1..] + b;
      LexLessSkipsPrefix(p[1..], a, b);
    }
  }

  /** The first differing position decides, whatever follows it. */
  lemma {:induction false} FirstDifferenceDecides(a: seq<nat>, b: seq<nat>, i: nat)
    requires i < |a| && i < |b| && a[..i] == b[..i]
    requires a[i] < b[i]
    ensures LexLess(a, b) && !LexLess(b, a)
  {
    if i > 0 {
      assert a[0] == a[..i][0] == b[..i][0] == b[0];
      assert a[1..][..i - 1] == a[..i][1..] == b[..i][1..] == b[1..][..i - 1];
      FirstDifferenceDecides(a[1..], b[1..], i - 1);
    }
  }

  /** A longer encoding opens with a larger byte. */
  lemma WiderLeadsHigher(c: char, d: char)
    requires c < d && |Utf8Char(c)| != |Utf8Char(d)|
    ensures Utf8Char(c)[0] < Utf8Char(d)[0]
  {
  }

  /** Numbers compare by their high part, then by their low six bits. */
  lemma SixBitDigits(n: nat, m: nat)
    requires n < m
    ensures n / 64 < m / 64 || (n / 64 == m / 64 && n % 64 < m % 64)
  {
  }

  lemma HighDigits(n: nat)
    ensures n / 4096 == n / 64 / 64 && n / 262144 == n / 64 / 64 / 64
  {
  }

  /** Two different characters differ in a byte both encodings have, and in code-point order there. */
  lemma CharBytesDecide(c: char, d: char) returns (i: nat)
    requires c < d
    ensures i < |Utf8Char(c)| && i < |Utf8Char(d)|
    ensures Utf8Char(c)[..i] == Utf8Char(d)[..i] && Utf8Char(c)[i] < Utf8Char(d)[i]
  {
    var n, m := c as int, d as int;
    var w := |Utf8Char(c)|;
    if w != |Utf8Char(d)| {
      WiderLeadsHigher(c, d);
      return 0;
    }
    HighDigits(n);
    HighDigits(m);
    SixBitDigits(n, m);
    if w == 1 || n / 64 == m / 64 {
      return w - 1;
    }
    SixBitDigits(n / 64, m / 64);
    if w == 2 || n / 64 / 64 == m / 64 / 64 {
      return w - 2;
    }
    SixBitDigits(n / 64 / 64, m / 64 / 64);
    if w == 3 || n / 64 / 64 / 64 == m / 64 / 64 / 64 {
      return w - 3;
    }
    return 0;
  }

  lemma DifferentHeadDecides(a: string, b: string)
    requires a != [] && b != [] && a[0] < b[0]
    ensures IdLess(a, b) && !IdLess(b, a)
  {
    var i := CharBytesDecide(a[0], b[0]);
    var x, y := Utf8Char(a[0]), Utf8Char(b[0]);
    assert Utf8(a)[..i] == x[..i] && Utf8(b)[..i] == y[..i];
    FirstDifferenceDecides(Utf8(a), Utf8(b), i);
  }

  /** UTF-8 preserves order: comparing bytes (Rust `str`, PostgreSQL "C") is comparing code points. */
  lemma {:induction false} ByteOrderIsCodePointOrder(a: string, b: string)
    ensures IdLess(a, b) <==> LexLess(CodePoints(a), CodePoints(b))
  {
    if a != [] && b != [] {
      if a[0] < b[0] {
        DifferentHeadDecides(a, b);
      } else if b[0] < a[0] {
        DifferentHeadDecides(b, a);
      } else {
        LexLessSkipsPrefix(Utf8Char(a[0]), Utf8(a[1..]), Utf8(b[1..]));
        ByteOrderIsCodePointOrder(a[1..], b[1..]);
        assert CodePoints(a)[1..] == CodePoints(a[1..]);
        assert CodePoints(b)[1..] == CodePoints(b[1..]);
      }
    }
  }

  /** Byte order is a strict order ... */
  lemma IdLessStrict(a: string, b: string, c: string)
    ensures !IdLess(a, a)
    ensures IdLess(a, b) && IdLess(b, c) ==> IdLess(a, c)
    ensures IdLess(a, b) ==> !IdLess(b, a)
  {
    LexLessIrreflexive(Utf8(a));
    if IdLess(a, b) && IdLess(b, c) { LexLessTransitive(Utf8(a), Utf8(b), Utf8(c)); }
    if IdLess(a, b) && IdLess(b, a) { LexLessTransitive(Utf8(a), Utf8(b), Utf8(a)); }
  }

  /** ... and total: distinct ids never tie, so sorting leaves only equal ids adjacent. */
  lemma {:induction false} IdLessTotal(a: string, b: string)
    ensures a == b || IdLess(a, b) || IdLess(b, a)
  {
    if a != [] && b != [] {
      if a[0] < b[0] {
        DifferentHeadDecides(a, b);
      } else if b[0] < a[0] {
        DifferentHeadDecides(b, a);
      } else {
        IdLessTotal(a[1..], b[1..]);
        LexLessSkipsPrefix(Utf8Char(a[0]), Utf8(a[1..]), Utf8(b[1..]));
        LexLessSkipsPrefix(Utf8Char(a[0]), Utf8(b[1..]), Utf8(a[1..]));
        assert a == [a[0]] + a[1..] && b == [b[0]] + b[1..];
      }
    }
  }

  ghost predicate StrictlyIncreasing(ids: seq<string>) {
    forall i, j :: 0 <= i < j < |ids| ==> IdLess(ids[i], ids[j])
  }

  // ----------------------------------------------------------- validation

  /** Unicode `White_Space`, which `str::trim` strips. */
  predicate IsWhitespace(c: char) {
    var n := c as int;
    0x09 <= n <= 0x0D || n == 0x20 || n == 0x85 || n == 0xA0 || n == 0x1680
    || 0x2000 <= n <= 0x200A || n == 0x2028 || n == 0x2029 || n == 0x202F || n == 0x205F || n == 0x3000
  }

  function TrimStart(s: string): string {
    if s != [] && IsWhitespace(s[0]) then TrimStart(s[1..]) else s
  }

  function TrimEnd(s: string): string {
    if s != [] && IsWhitespace(s[|s| - 1]) then TrimEnd(s[..|s| - 1]) else s
  }

  function Trim(s: string): string { TrimEnd(TrimStart(s)) }

  /** `TryFrom<String>` for an id type with limit `max`. */
  function TryFrom(value: string, max: nat): Result<string, InvalidId> {
    if Trim(value) == [] then Err(Empty)
    else if ByteLen(Trim(value)) != ByteLen(value) then Err(SurroundingWhitespace)
    else if ByteLen(value) > max then Err(TooLong(ByteLen(value), max))
    else Ok(value)
  }

  /** `MessageId::scoped`. */
  function Scoped(scope: string, id: string): Result<string, InvalidId> {
    if ':' in scope then Err(ScopeContainsSeparator)
    else if Trim(scope) == [] then Err(Empty)
    else if ByteLen(Trim(scope)) != ByteLen(scope) then Err(SurroundingWhitespace)
    else if Trim(id) == [] then Err(Empty)
    else if ByteLen(Trim(id)) != ByteLen(id) then Err(SurroundingWhitespace)
    else TryFrom(scope + ":" + id, MESSAGE_MAX_LEN)
  }

  /** Every character is whitespace. */
  ghost predicate Blank(s: string) {
    forall i :: 0 <= i < |s| ==> IsWhitespace(s[i])
  }

  /** Neither end is whitespace, and there is something to identify. */
  ghost predicate Clean(s: string) {
    s != [] && !IsWhitespace(s[0]) && !IsWhitespace(s[|s| - 1])
  }

  lemma {:induction false} TrimStartMeaning(s: string)
    ensures TrimStart(s) == [] <==> Blank(s)
    ensures ByteLen(TrimStart(s)) <= ByteLen(s)
    ensures ByteLen(TrimStart(s)) == ByteLen(s) <==> TrimStart(s) == s
    ensures TrimStart(s) == s <==> s == [] || !IsWhitespace(s[0])
    ensures TrimStart(s) != [] ==> s != [] && !IsWhitespace(TrimStart(s)[0])
    ensures TrimStart(s) != [] ==> TrimStart(s)[|TrimStart(s)| - 1] == s[|s| - 1]
    ensures |TrimStart(s)| <= |s|
  {
    if s != [] && IsWhitespace(s[0]) {
      TrimStartMeaning(s[1..]);
      assert Blank(s) ==> Blank(s[1..]);
      assert Blank(s[1..]) ==> Blank(s) by {
        assert forall i :: 0 < i < |s| ==> s[i] == s[1..][i - 1];
      }
    }
  }

  lemma {:induction false} TrimEndMeaning(s: string)
    ensures TrimEnd(s) == [] <==> Blank(s)
    ensures ByteLen(TrimEnd(s)) <= ByteLen(s)
    ensures ByteLen(TrimEnd(s)) == ByteLen(s) <==> TrimEnd(s) == s
    ensures TrimEnd(s) == s <==> s == [] || !IsWhitespace(s[|s| - 1])
    ensures |TrimEnd(s)| <= |s|
  {
    if s != [] && IsWhitespace(s[|s| - 1]) {
      var rest := s[..|s| - 1];
      TrimEndMeaning(rest);
      Utf8Concat(rest, s[|s| - 1..]);
      assert s == rest + s[|s| - 1..];
      assert Blank(rest) ==> Blank(s) by {
        assert forall i :: 0 <= i < |rest| ==> s[i] == rest[i];
      }
    }
  }

  /** What the two trim tests decide: blank, or clean at both ends. */
  lemma {:induction false} TrimMeaning(s: string)
    ensures Trim(s) == [] <==> Blank(s)
    ensures Trim(s) != [] ==> (ByteLen(Trim(s)) == ByteLen(s) <==> Clean(s))
    ensures Clean(s) ==> !Blank(s)
  {
    TrimStartMeaning(s);
    TrimEndMeaning(TrimStart(s));
    if Clean(s) { assert s[0] == s[0]; }
    assert Blank(TrimStart(s)) ==> TrimStart(s) == [];
  }

  /** The code points with the Unicode property White_Space. */
  const WHITE_SPACE: set<int> := {
    0x09, 0x0A, 0x0B, 0x0C, 0x0D, 0x20, 0x85, 0xA0, 0x1680,
    0x2000, 0x2001, 0x2002, 0x2003, 0x2004, 0x2005, 0x2006, 0x2007, 0x2008, 0x2009, 0x200A,
    0x2028, 0x2029, 0x202F, 0x205F, 0x3000}

  lemma WhitespaceIsUnicodes(c: char)
    ensures IsWhitespace(c) <==> c as int in WHITE_SPACE
  {
  }

  /** Every printable ASCII character counts as content; blank, tab and line breaks do not. */
  lemma WhitespaceIsNotContent(c: char)
    ensures 0x21 <= c as int <= 0x7E ==> !IsWhitespace(c)
    ensures c in {' ', '\t', '\n', '\r'} ==> IsWhitespace(c)
  {
  }

  /** Ids of printable ASCII pass up to the limit, one byte a character; a blank or line break at an end fails. */
  lemma {:induction false} AsciiIds(s: string, max: nat, c: char)
    requires s != [] && forall i :: 0 <= i < |s| ==> 0x21 <= s[i] as int <= 0x7E
    requires c in {' ', '\t', '\n', '\r'}
    ensures ByteLen(s) == |s|
    ensures TryFrom(s, max) == if |s| <= max then Ok(s) else Err(TooLong(|s|, max))
    ensures TryFrom([c] + s, max) == Err(SurroundingWhitespace) == TryFrom(s + [c], max)
    ensures TryFrom([c], max) == Err(Empty)
  {
    AsciiLength(s);
    WhitespaceIsNotContent(s[0]);
    WhitespaceIsNotContent(s[|s| - 1]);
    WhitespaceIsNotContent(c);
    TryFromExact(s, max);
    TryFromExact([c], max);
    assert ([c] + s)[1] == s[0] && (s + [c])[0] == s[0];
    TryFromExact([c] + s, max);
    TryFromExact(s + [c], max);
  }

  lemma {:induction false} AsciiLength(s: string)
    requires forall i :: 0 <= i < |s| ==> 0x21 <= s[i] as int <= 0x7E
    ensures ByteLen(s) == |s|
  {
    if s != [] { AsciiLength(s[1..]); }
  }

  /** Validation accepts exactly the clean values that fit, unchanged, and names the first failing test. */
  lemma {:induction false} TryFromExact(value: string, max: nat)
    ensures TryFrom(value, max) ==
            if Blank(value) then Err(Empty)
            else if !Clean(value) then Err(SurroundingWhitespace)
            else if ByteLen(value) > max then Err(TooLong(ByteLen(value), max))
            else Ok(value)
  {
    TrimMeaning(value);
  }

  lemma {:induction false} JoinMeaning(scope: string, id: string)
    requires Clean(scope) && Clean(id)
    ensures Clean(scope + ":" + id)
    ensures ByteLen(scope + ":" + id) == ByteLen(scope) + 1 + ByteLen(id)
  {
    var joined := scope + ":" + id;
    assert joined[0] == scope[0] && joined[|joined| - 1] == id[|id| - 1];
    JoinLength(scope, id);
  }

  lemma {:induction false} JoinLength(scope: string, id: string)
    ensures ByteLen(scope + ":" + id) == ByteLen(scope) + 1 + ByteLen(id)
  {
    Utf8Concat(scope + ":", id);
    Utf8Concat(scope, ":");
    assert Utf8(":") == Utf8Char(':') + Utf8([]);
  }

  /** `scoped` succeeds exactly when the scope has no separator, both parts are clean and the join fits. */
  lemma {:induction false} ScopedAccepts(scope: string, id: string)
    ensures Scoped(scope, id).Ok? <==>
            ':' !in scope && Clean(scope) && Clean(id)
            && ByteLen(scope) + 1 + ByteLen(id) <= MESSAGE_MAX_LEN
    ensures Scoped(scope, id).Ok? ==> Scoped(scope, id).value == scope + ":" + id
  {
    TrimMeaning(scope);
    TrimMeaning(id);
    if Clean(scope) && Clean(id) {
      JoinMeaning(scope, id);
      TryFromExact(scope + ":" + id, MESSAGE_MAX_LEN);
    }
  }

  /** What `scoped` answers, for every pair: the first part to fail a test decides the error. */
  lemma {:induction false} ScopedExact(scope: string, id: string)
    ensures Scoped(scope, id) ==
            if ':' in scope then Err(ScopeContainsSeparator)
            else if Blank(scope) then Err(Empty)
            else if !Clean(scope) then Err(SurroundingWhitespace)
            else if Blank(id) then Err(Empty)
            else if !Clean(id) then Err(SurroundingWhitespace)
            else if ByteLen(scope) + 1 + ByteLen(id) > 512 then Err(TooLong(ByteLen(scope) + 1 + ByteLen(id), 512))
            else Ok(scope + ":" + id)
  {
    TrimMeaning(scope);
    TrimMeaning(id);
    if Clean(scope) && Clean(id) {
      JoinMeaning(scope, id);
      TryFromExact(scope + ":" + id, MESSAGE_MAX_LEN);
    }
  }

  /** Once both parts pass, the final validation can only object to the length. */
  lemma {:induction false} ScopedJoinFailsOnlyByLength(scope: string, id: string)
    requires ':' !in scope && Clean(scope) && Clean(id)
    ensures Scoped(scope, id).Err? <==> ByteLen(scope) + 1 + ByteLen(id) > MESSAGE_MAX_LEN
    ensures Scoped(scope, id).Err? ==>
              Scoped(scope, id).error == TooLong(ByteLen(scope) + 1 + ByteLen(id), MESSAGE_MAX_LEN)
  {
    TrimMeaning(scope);
    TrimMeaning(id);
    JoinMeaning(scope, id);
    TryFromExact(scope + ":" + id, MESSAGE_MAX_LEN);
  }

  /** The parts around the first ':'. */
  function SplitFirst(s: string): (string, string) {
    if s == [] then ([], [])
    else if s[0] == ':' then ([], s[1..])
    else var rest := SplitFirst(s[1..]); ([s[0]] + rest.0, rest.1)
  }

  lemma {:induction false} SplitInvertsJoin(scope: string, id: string)
    requires ':' !in scope
    ensures SplitFirst(scope + ":" + id) == (scope, id)
  {
    var s := scope + ":" + id;
    if scope == [] {
      assert s[1..] == id;
    } else {
      assert s[1..] == scope[1..] + ":" + id;
      SplitInvertsJoin(scope[1..], id);
      assert s[0] == scope[0] && scope == [scope[0]] + scope[1..];
    }
  }

  /** Splitting a scoped id recovers both parts, so no two pairs share an id. */
  lemma ScopedInjective(scope: string, id: string, scope': string, id': string)
    requires Scoped(scope, id).Ok? && Scoped(scope', id').Ok?
    ensures SplitFirst(Scoped(scope, id).value) == (scope, id)
    ensures Scoped(scope, id) == Scoped(scope', id') ==> scope == scope' && id == id'
  {
    ScopedAccepts(scope, id);
    ScopedAccepts(scope', id');
    SplitInvertsJoin(scope, id);
    SplitInvertsJoin(scope', id');
  }
}
