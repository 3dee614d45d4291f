/** The pieces of Rust's string library the server relies on, on `seq<char>`:
    `str::split` (leftmost, non-overlapping matches), `str::trim`,
    `str::replace`, and parsing and printing of a `u8`. */
module Text {

  datatype Option<T> = None | Some(value: T)

  datatype Result<T, E> = Ok(value: T) | Err(error: E)

  type U8 = n: int | 0 <= n < 256

  // ---------------------------------------------------------------------
  // Whitespace and trim

  /** `char::is_whitespace`: the characters with the Unicode White_Space property. */
  predicate IsWhitespace(c: char) {
    var n := c as int;
    (0x09 <= n <= 0x0D) || n == 0x20 || n == 0x85 || n == 0xA0 || n == 0x1680
    || (0x2000 <= n <= 0x200A) || n == 0x2028 || n == 0x2029 || n == 0x202F
    || n == 0x205F || n == 0x3000
  }

  predicate AllWhitespace(s: string) {
    forall i :: 0 <= i < |s| ==> IsWhitespace(s[i])
  }

  /** Neither end of `s` is whitespace. */
  predicate Trimmed(s: string) {
    s == [] || (!IsWhitespace(s[0]) && !IsWhitespace(s[|s| - 1]))
  }

  /** `str::trim_start`: drops the leading whitespace. */
  function TrimStart(s: string): string {
    if |s| > 0 && IsWhitespace(s[0]) then TrimStart(s[1..]) else s
  }

  /** `str::trim_end`: drops the trailing whitespace. */
  function TrimEnd(s: string): string {
    if |s| > 0 && IsWhitespace(s[|s| - 1]) then TrimEnd(s[..|s| - 1]) else s
  }

  /** What `trim_start` removes is whitespace, and what it keeps starts with none. */
  lemma {:induction false} TrimStartSpec(s: string)
    ensures var r := TrimStart(s);
      |r| <= |s| && r == s[|s| - |r|..] && AllWhitespace(s[..|s| - |r|]) &&
      (r == [] || !IsWhitespace(r[0]))
    decreases |s|
  {
    if |s| > 0 && IsWhitespace(s[0]) {
      TrimStartSpec(s[1..]);
      var r := TrimStart(s[1..]);
      assert s[..|s| - |r|] == [s[0]] + s[1..][..|s| - 1 - |r|];
    }
  }

  /** What `trim_end` removes is whitespace, and what it keeps ends with none. */
  lemma {:induction false} TrimEndSpec(s: string)
    ensures var r := TrimEnd(s);
      |r| <= |s| && r == s[..|r|] && AllWhitespace(s[|r|..]) &&
      (r == [] || !IsWhitespace(r[|r| - 1]))
    decreases |s|
  {
    if |s| > 0 && IsWhitespace(s[|s| - 1]) {
      TrimEndSpec(s[..|s| - 1]);
      var r := TrimEnd(s[..|s| - 1]);
      assert s[|r|..] == s[..|s| - 1][|r|..] + [s[|s| - 1]];
    }
  }

  /** `str::trim`. */
  function Trim(s: string): string {
    TrimEnd(TrimStart(s))
  }

  /** `trim` keeps a middle part of the string whose two ends are not whitespace,
      and drops only whitespace on either side of it. */
  lemma TrimSpec(s: string)
    ensures var r := Trim(s);
      Trimmed(r) &&
      exists k :: 0 <= k <= |s| - |r| && s[k..k + |r|] == r && AllWhitespace(s[..k]) && AllWhitespace(s[k + |r|..])
  {
    var t := TrimStart(s);
    TrimStartSpec(s);
    TrimEndSpec(t);
    var r := TrimEnd(t);
    var k := |s| - |t|;
    assert s[k..k + |r|] == t[..|r|];
    assert s[k + |r|..] == t[|r|..];
    if r != [] {
      assert r[0] == t[0];
      assert !IsWhitespace(r[0]);
    }
  }

  lemma {:induction false} TrimStartAllWhitespace(s: string)
    requires AllWhitespace(s)
    ensures TrimStart(s) == []
    decreases |s|
  {
    if |s| > 0 {
      TrimStartAllWhitespace(s[1..]);
    }
  }

  lemma {:induction false} TrimStartPadded(a: string, t: string)
    requires AllWhitespace(a)
    ensures TrimStart(a + t) == TrimStart(t)
    decreases |a|
  {
    if |a| > 0 {
      assert (a + t)[1..] == a[1..] + t;
      TrimStartPadded(a[1..], t);
    } else {
      assert a + t == t;
    }
  }

  lemma {:induction false} TrimEndPadded(t: string, b: string)
    requires AllWhitespace(b)
    ensures TrimEnd(t + b) == TrimEnd(t)
    decreases |b|
  {
    if |b| > 0 {
      assert (t + b)[..|t + b| - 1] == t + b[..|b| - 1];
      TrimEndPadded(t, b[..|b| - 1]);
    } else {
      assert t + b == t;
    }
  }

  lemma {:induction false} TrimStartAppend(s: string, b: string)
    requires !AllWhitespace(s)
    ensures TrimStart(s + b) == TrimStart(s) + b
    decreases |s|
  {
    if IsWhitespace(s[0]) {
      assert (s + b)[1..] == s[1..] + b;
      TrimStartAppend(s[1..], b);
    }
  }

  /** Whitespace around a field never changes what `trim` leaves of it. */
  lemma TrimPadded(a: string, s: string, b: string)
    requires AllWhitespace(a) && AllWhitespace(b)
    ensures Trim(a + s + b) == Trim(s)
  {
    assert a + s + b == a + (s + b);
    TrimStartPadded(a, s + b);
    if AllWhitespace(s) {
      assert AllWhitespace(s + b);
      TrimStartAllWhitespace(s + b);
      TrimStartAllWhitespace(s);
    } else {
      TrimStartAppend(s, b);
      TrimEndPadded(TrimStart(s), b);
    }
  }

  /** A trimmed string is left as it is, so `trim` is idempotent. */
  lemma TrimTrimmed(s: string)
    requires Trimmed(s)
    ensures Trim(s) == s
  {
  }

  lemma TrimIdempotent(s: string)
    ensures Trim(Trim(s)) == Trim(s)
  {
    TrimSpec(s);
    TrimTrimmed(Trim(s));
  }

  // ---------------------------------------------------------------------
  // Searching, splitting, joining

  /** `pat` occurs in `s` starting at index `i`. */
  predicate OccursAt(s: string, pat: string, i: int) {
    0 <= i && i + |pat| <= |s| && s[i..i + |pat|] == pat
  }

  /** The first index at or after `i` where `pat` occurs. */
  function FindFrom(s: string, pat: string, i: nat): (r: Option<nat>)
    requires i <= |s|
    ensures r.Some? ==> i <= r.value && r.value + |pat| <= |s|
    decreases |s| - i
  {
    if i + |pat| > |s| then None
    else if s[i..i + |pat|] == pat then Some(i)
    else FindFrom(s, pat, i + 1)
  }

  /** `FindFrom` finds an occurrence, and there is none between `i` and it. */
  lemma {:induction false} FindFromSpec(s: string, pat: string, i: nat)
    requires i <= |s|
    ensures var r := FindFrom(s, pat, i);
      (r.Some? ==> i <= r.value && OccursAt(s, pat, r.value)) &&
      forall j :: i <= j && (r.None? || j < r.value) ==> !OccursAt(s, pat, j)
    decreases |s| - i
  {
    if i + |pat| <= |s| && s[i..i + |pat|] != pat {
      FindFromSpec(s, pat, i + 1);
    }
  }

  /** `str::find`: the leftmost occurrence of `pat`. */
  function Find(s: string, pat: string): Option<nat> {
    FindFrom(s, pat, 0)
  }

  /** The leftmost occurrence is the one before which there is none. */
  lemma FindFirst(s: string, pat: string, i: nat)
    requires OccursAt(s, pat, i)
    requires forall j :: 0 <= j < i ==> !OccursAt(s, pat, j)
    ensures Find(s, pat) == Some(i)
  {
    FindFromSpec(s, pat, 0);
  }

  /** `str::split` with a string pattern: the pieces between the leftmost
      non-overlapping occurrences of `pat`. */
  function SplitOn(s: string, pat: string): (parts: seq<string>)
    requires |pat| > 0
    ensures |parts| >= 1
    decreases |s|
  {
    match Find(s, pat)
    case None => [s]
    case Some(i) => [s[..i]] + SplitOn(s[i + |pat|..], pat)
  }

  /** `str::split` on one character. */
  function Split(s: string, sep: char): (parts: seq<string>)
    ensures |parts| >= 1
  {
    SplitOn(s, [sep])
  }

  /** `[String]::join`. */
  function Join(parts: seq<string>, sep: string): string {
    if |parts| == 0 then ""
    else if |parts| == 1 then parts[0]
    else parts[0] + sep + Join(parts[1..], sep)
  }

  /** `str::replace`: every leftmost non-overlapping occurrence of `from`
      replaced by `to` (the library builds it from the same matches as `split`). */
  function ReplaceAll(s: string, from: string, to: string): string
    requires |from| > 0
  {
    Join(SplitOn(s, from), to)
  }

  lemma JoinCons(a: string, tail: seq<string>, sep: string)
    requires |tail| >= 1
    ensures Join([a] + tail, sep) == a + sep + Join(tail, sep)
  {
    assert ([a] + tail)[1..] == tail;
  }

  /** Splitting loses nothing: joining the pieces with the pattern gives the string back. */
  lemma {:induction false} JoinSplitOn(s: string, pat: string)
    requires |pat| > 0
    ensures Join(SplitOn(s, pat), pat) == s
    decreases |s|
  {
    var r := Find(s, pat);
    if r.Some? {
      var i := r.value;
      FindFromSpec(s, pat, 0);
      var rest := s[i + |pat|..];
      var tail := SplitOn(rest, pat);
      assert SplitOn(s, pat) == [s[..i]] + tail;
      JoinSplitOn(rest, pat);
      JoinCons(s[..i], tail, pat);
      assert s[i..i + |pat|] == pat;
      assert s == s[..i] + s[i..i + |pat|] + rest;
    }
  }

  /** No piece of a split contains the pattern. */
  lemma {:induction false} SplitOnPiecesFree(s: string, pat: string)
    requires |pat| > 0
    ensures forall k, j :: 0 <= k < |SplitOn(s, pat)| ==> !OccursAt(SplitOn(s, pat)[k], pat, j)
    decreases |s|
  {
    match Find(s, pat)
    case None =>
      FindFromSpec(s, pat, 0);
    case Some(i) =>
      var rest := s[i + |pat|..];
      FindFromSpec(s, pat, 0);
      SplitOnPiecesFree(rest, pat);
      forall j | OccursAt(s[..i], pat, j) ensures false {
        assert s[..i][j..j + |pat|] == s[j..j + |pat|];
        assert OccursAt(s, pat, j);
      }
  }

  lemma {:induction false} JoinFree(parts: seq<string>, sep: string, c: char)
    requires c !in sep && forall k :: 0 <= k < |parts| ==> c !in parts[k]
    ensures c !in Join(parts, sep)
    decreases |parts|
  {
    if |parts| > 1 {
      JoinFree(parts[1..], sep, c);
    }
  }

  lemma {:induction false} PartsOfJoin(parts: seq<string>, sep: string, c: char)
    requires c !in Join(parts, sep)
    ensures forall k :: 0 <= k < |parts| ==> c !in parts[k]
    decreases |parts|
  {
    if |parts| > 1 {
      PartsOfJoin(parts[1..], sep, c);
      forall k | 1 <= k < |parts| ensures c !in parts[k] {
        assert parts[k] == parts[1..][k - 1];
      }
    }
  }

  /** Replacing never brings in a character that neither the text nor the replacement has. */
  lemma ReplaceAllFree(s: string, from: string, to: string, c: char)
    requires |from| > 0 && c !in s && c !in to
    ensures c !in ReplaceAll(s, from, to)
  {
    JoinSplitOn(s, from);
    PartsOfJoin(SplitOn(s, from), from, c);
    JoinFree(SplitOn(s, from), to, c);
  }

  /** When the first occurrence of `pat` in `a + pat + b` is the one after `a`,
      splitting takes off `a` as the first piece. */
  lemma SplitOnCons(a: string, pat: string, b: string)
    requires |pat| > 0
    requires forall j :: 0 <= j < |a| ==> !OccursAt(a + pat + b, pat, j)
    ensures SplitOn(a + pat + b, pat) == [a] + SplitOn(b, pat)
  {
    var s := a + pat + b;
    assert s[|a|..|a| + |pat|] == pat;
    FindFirst(s, pat, |a|);
    assert s[..|a|] == a;
    assert s[|a| + |pat|..] == b;
  }

  /** Without an occurrence, the whole string is the only piece. */
  lemma SplitOnAbsent(s: string, pat: string)
    requires |pat| > 0
    requires forall j :: 0 <= j < |s| ==> !OccursAt(s, pat, j)
    ensures SplitOn(s, pat) == [s]
  {
    FindFromSpec(s, pat, 0);
  }

  /** A string with no occurrence of `from` is left unchanged by `replace`. */
  lemma ReplaceAbsent(s: string, from: string, to: string)
    requires |from| > 0
    requires forall j :: 0 <= j < |s| ==> !OccursAt(s, from, j)
    ensures ReplaceAll(s, from, to) == s
  {
    SplitOnAbsent(s, from);
  }

  /** Total length of the pieces. */
  function TotalLength(parts: seq<string>): nat {
    if |parts| == 0 then 0 else |parts[0]| + TotalLength(parts[1..])
  }

  lemma {:induction false} JoinLength(parts: seq<string>, sep: string)
    requires |parts| >= 1
    ensures |Join(parts, sep)| == TotalLength(parts) + (|parts| - 1) * |sep|
    decreases |parts|
  {
    if |parts| > 1 {
      JoinLength(parts[1..], sep);
    }
  }

  /** Removing with `replace(from, "")` shortens the string by `|from|` per
      removed occurrence, the occurrences being the gaps between split pieces. */
  lemma RemoveAllLength(s: string, from: string)
    requires |from| > 0
    ensures |ReplaceAll(s, from, "")| + (|SplitOn(s, from)| - 1) * |from| == |s|
  {
    var parts := SplitOn(s, from);
    JoinLength(parts, from);
    JoinLength(parts, "");
    assert (|parts| - 1) * |""| == 0;
    assert |ReplaceAll(s, from, "")| == TotalLength(parts);
    JoinSplitOn(s, from);
    assert |Join(parts, from)| == |s|;
  }

  /** `text` followed by `c` after each piece: how the server writes rows and cells. */
  function Terminated(pieces: seq<string>, c: char): string {
    if |pieces| == 0 then "" else pieces[0] + [c] + Terminated(pieces[1..], c)
  }

  lemma {:induction false} TerminatedSnoc(pieces: seq<string>, c: char, k: nat)
    requires k < |pieces|
    ensures Terminated(pieces[..k + 1], c) == Terminated(pieces[..k], c) + pieces[k] + [c]
    decreases k
  {
    if k > 0 {
      var tail := pieces[1..];
      TerminatedSnoc(tail, c, k - 1);
      assert pieces[..k + 1][1..] == tail[..k];
      assert pieces[..k][1..] == tail[..k - 1];
    }
  }

  /** Splitting at a character that none of `x` holds takes off `x` as the first piece. */
  lemma SplitCons(x: string, c: char, rest: string)
    requires c !in x
    ensures Split(x + [c] + rest, c) == [x] + Split(rest, c)
  {
    forall j | 0 <= j < |x| ensures !OccursAt(x + [c] + rest, [c], j) {
      assert (x + [c] + rest)[j] == x[j];
    }
    SplitOnCons(x, [c], rest);
  }

  /** A text without the character splits into itself alone. */
  lemma SplitAbsent(s: string, c: char)
    requires c !in s
    ensures Split(s, c) == [s]
  {
    forall j | 0 <= j < |s| ensures !OccursAt(s, [c], j) {
      assert s[j..j + 1] == [s[j]];
    }
    SplitOnAbsent(s, [c]);
  }

  /** Two texts without the character, joined by it, split back into the two. */
  lemma SplitPair(a: string, c: char, b: string)
    requires c !in a && c !in b
    ensures Split(a + [c] + b, c) == [a, b]
  {
    SplitCons(a, c, b);
    SplitAbsent(b, c);
  }

  /** A character absent from a text is absent from every piece of its split. */
  lemma SplitFree(s: string, sep: char, c: char)
    requires c !in s
    ensures forall k :: 0 <= k < |Split(s, sep)| ==> c !in Split(s, sep)[k]
  {
    JoinSplitOn(s, [sep]);
    PartsOfJoin(SplitOn(s, [sep]), [sep], c);
  }

  /** No piece of a split holds the separator character. */
  lemma SplitSeparatorFree(s: string, sep: char)
    ensures forall k :: 0 <= k < |Split(s, sep)| ==> sep !in Split(s, sep)[k]
  {
    var parts := Split(s, sep);
    SplitOnPiecesFree(s, [sep]);
    forall k | 0 <= k < |parts| ensures sep !in parts[k] {
      forall j | 0 <= j < |parts[k]| ensures parts[k][j] != sep {
        assert !OccursAt(parts[k], [sep], j);
        assert parts[k][j..j + 1] == [parts[k][j]];
      }
    }
  }

  /** Trimming keeps a part of the text, so it brings in no character. */
  lemma TrimFree(s: string, c: char)
    requires c !in s
    ensures c !in Trim(s)
  {
    var r := Trim(s);
    TrimSpec(s);
    var k :| 0 <= k <= |s| - |r| && s[k..k + |r|] == r && AllWhitespace(s[..k]) && AllWhitespace(s[k + |r|..]);
    forall i | 0 <= i < |r| ensures r[i] != c {
      assert r[i] == s[k + i];
    }
  }

  /** Splitting a text of terminated pieces at their terminator recovers the
      pieces, followed by the empty piece after the last terminator. */
  lemma {:induction false} SplitTerminated(pieces: seq<string>, c: char)
    requires forall k :: 0 <= k < |pieces| ==> c !in pieces[k]
    ensures Split(Terminated(pieces, c), c) == pieces + [""]
    decreases |pieces|
  {
    if |pieces| == 0 {
      assert Find("", [c]) == None;
    } else {
      SplitTerminated(pieces[1..], c);
      SplitCons(pieces[0], c, Terminated(pieces[1..], c));
      assert pieces == [pieces[0]] + pieces[1..];
    }
  }

  // ---------------------------------------------------------------------
  // u8 parsing and printing

  predicate IsDigit(c: char) {
    '0' <= c <= '9'
  }

  predicate AllDigits(s: string) {
    forall i :: 0 <= i < |s| ==> IsDigit(s[i])
  }

  /** The number a string of decimal digits denotes. */
  function DecimalValue(ds: string): nat
    requires AllDigits(ds)
  {
    if |ds| == 0 then 0
    else DecimalValue(ds[..|ds| - 1]) * 10 + (ds[|ds| - 1] as int - '0' as int)
  }

  /** `u8::from_str`: an optional `+`, then at least one decimal digit, with a
      value below 256 (a leading `-` is an invalid digit for an unsigned type). */
  function ParseU8(s: string): Option<U8> {
    var ds := if |s| > 0 && s[0] == '+' then s[1..] else s;
    if |ds| == 0 || !AllDigits(ds) then None
    else if DecimalValue(ds) > 255 then None
    else Some(DecimalValue(ds))
  }

  function DigitChar(d: nat): char
    requires d < 10
  {
    ('0' as int + d) as char
  }

  /** `Display` for an unsigned integer: decimal, without leading zeros. */
  function FormatNat(n: nat): string {
    if n < 10 then [DigitChar(n)] else FormatNat(n / 10) + [DigitChar(n % 10)]
  }

  /** The printed form is a non-empty run of digits that denotes the number. */
  lemma {:induction false} FormatNatSpec(n: nat)
    ensures var r := FormatNat(n);
      |r| >= 1 && AllDigits(r) && r[0] != '+' && DecimalValue(r) == n
  {
    if n >= 10 {
      FormatNatSpec(n / 10);
      var r := FormatNat(n);
      assert r[..|r| - 1] == FormatNat(n / 10);
    }
  }

  /** Printing a `u8` and parsing it back gives the same value. */
  lemma ParseFormatU8(n: U8)
    ensures ParseU8(FormatNat(n)) == Some(n)
  {
    FormatNatSpec(n);
  }

  /** `u8` parsing ignores whitespace around the field once it is trimmed. */
  lemma ParseU8TrimPadded(a: string, s: string, b: string)
    requires AllWhitespace(a) && AllWhitespace(b)
    ensures ParseU8(Trim(a + s + b)) == ParseU8(Trim(s))
  {
    TrimPadded(a, s, b);
  }
}
