/**
 Object keys: how a file's prefix, timestamp and compacted flag are printed and
 parsed, and what listing "after" a printed key does. Keys are ASCII, compared
 character by character as the object store does.
 */
module FileKeys {
  import opened Wrappers

  datatype FileMeta = FileMeta(key: string, prefix: string, timestamp: nat, compacted: bool)

  datatype Error = NoMatch | InvalidTimestamp

  const PARQUET := ".parquet"
  const COMPACTED := ".c.parquet"
  const PROCESSED := ".processed"

  predicate IsDigit(c: char) {
    '0' <= c <= '9'
  }

  /** The characters of a prefix; the comma is in the pattern's character class as well. */
  predicate IsPrefixChar(c: char) {
    'a' <= c <= 'z' || IsDigit(c) || c == '_' || c == ','
  }

  predicate IsPrefix(s: string) {
    s != "" && forall c <- s :: IsPrefixChar(c)
  }

  predicate AllDigits(s: string) {
    forall c <- s :: IsDigit(c)
  }

  // ------------------------------------------------------------------
  // Numbers
  // ------------------------------------------------------------------

  function Digit(n: nat): char
    requires n < 10
  {
    '0' + n as char
  }

  function Decimal(n: nat): string {
    if n < 10 then [Digit(n)] else Decimal(n / 10) + [Digit(n % 10)]
  }

  function NumberOf(digits: string): nat
    requires AllDigits(digits)
  {
    if digits == "" then 0
    else
      assert digits[|digits| - 1] in digits && forall c <- digits[..|digits| - 1] :: c in digits;
      NumberOf(digits[..|digits| - 1]) * 10 + (digits[|digits| - 1] - '0') as nat
  }

  lemma {:induction false} DecimalRoundTrip(n: nat)
    ensures AllDigits(Decimal(n)) && Decimal(n) != "" && NumberOf(Decimal(n)) == n
  {
    if n >= 10 {
      DecimalRoundTrip(n / 10);
      assert Decimal(n)[..|Decimal(n)| - 1] == Decimal(n / 10);
    } else {
      assert Decimal(n)[..0] == "";
    }
  }

  // ------------------------------------------------------------------
  // Parsing
  // ------------------------------------------------------------------

  /** The longest initial run of prefix characters. */
  function Run(s: string): string {
    if s != "" && IsPrefixChar(s[0]) then [s[0]] + Run(s[1..]) else ""
  }

  function DigitRun(s: string): string {
    if s != "" && IsDigit(s[0]) then [s[0]] + DigitRun(s[1..]) else ""
  }

  /** A match of `prefix . digits` at position `at`, with what follows it. */
  datatype Capture = Capture(at: nat, prefix: string, digits: string, rest: string)

  /** The pattern `([a-z,\\d,_]+)\\.(\\d+)(\\.c)?(\\.parquet)?`, searched from the left. */
  function Find(s: string): Option<Capture> {
    if s == "" then None
    else
      var run := Run(s);
      RunShape(s);
      if Starts(s) then
        var digits := DigitRun(s[|run| + 1..]);
        DigitRunShape(s[|run| + 1..]);
        Some(Capture(0, run, digits, s[|run| + 1 + |digits|..]))
      else
        match Find(s[1..])
        case None => None
        case Some(c) => Some(c.(at := c.at + 1))
  }

  lemma {:induction false} RunShape(s: string)
    ensures Run(s) <= s && forall c <- Run(s) :: IsPrefixChar(c)
    ensures |Run(s)| < |s| ==> !IsPrefixChar(s[|Run(s)|])
  {
    if s != "" && IsPrefixChar(s[0]) {
      RunShape(s[1..]);
    }
  }

  lemma {:induction false} DigitRunShape(s: string)
    ensures DigitRun(s) <= s && AllDigits(DigitRun(s))
    ensures |DigitRun(s)| < |s| ==> !IsDigit(s[|DigitRun(s)|])
  {
    if s != "" && IsDigit(s[0]) {
      DigitRunShape(s[1..]);
    }
  }

  /** `s[i..j]` is the first group of a match, and a digit follows the dot behind it. */
  predicate MatchAt(s: string, i: nat, j: nat) {
    i < j && j + 1 < |s| && IsPrefix(s[i..j]) && s[j] == '.' && IsDigit(s[j + 1])
  }

  lemma {:induction false} RunIsMaximal(s: string, j: nat)
    requires j < |s| && (forall c <- s[..j] :: IsPrefixChar(c)) && !IsPrefixChar(s[j])
    ensures |Run(s)| == j
  {
    if j > 0 {
      assert s[..j][0] == s[0] && forall c <- s[1..][..j - 1] :: c in s[..j];
      RunIsMaximal(s[1..], j - 1);
    }
  }

  /** A match at the start of the string ends where the run of prefix characters ends. */
  lemma {:induction false} NoOtherEnd(s: string, j: nat)
    requires MatchAt(s, 0, j)
    ensures j == |Run(s)|
  {
    assert s[0..j] == s[..j];
    RunIsMaximal(s, j);
  }

  lemma {:induction false} MatchShifts(s: string, i: nat, j: nat)
    requires s != ""
    ensures MatchAt(s, i + 1, j + 1) == MatchAt(s[1..], i, j)
  {
    if i < j && j + 1 < |s| {
      assert s[1..][i..j] == s[i + 1..j + 1];
    }
  }

  ghost predicate Leftmost(s: string, c: Capture) {
    && MatchAt(s, c.at, c.at + |c.prefix|)
    && (forall i: nat, j: nat :: i < c.at ==> !MatchAt(s, i, j))
    && s[c.at..] == c.prefix + "." + c.digits + c.rest
    && IsPrefix(c.prefix) && c.digits != "" && AllDigits(c.digits)
    && (c.rest != "" ==> !IsDigit(c.rest[0]))
  }

  lemma {:induction false} SplitAt(s: string, n: nat)
    requires n < |s|
    ensures s == s[..n] + [s[n]] + s[n + 1..]
  {
  }

  lemma {:induction false} SplitPrefix(s: string, head: string)
    requires head <= s
    ensures s == head + s[|head|..]
  {
  }

  lemma {:induction false} FoundHere(s: string)
    requires Starts(s)
    ensures Find(s).Some? && Find(s).value.at == 0 && Leftmost(s, Find(s).value)
  {
    var run := Run(s);
    RunShape(s);
    var tail := s[|run| + 1..];
    DigitRunShape(tail);
    var c := Find(s).value;
    assert c.rest == tail[|c.digits|..];
    SplitPrefix(tail, c.digits);
    SplitAt(s, |run|);
    assert s[..|run|] == run == s[0..|run|] && s[0..] == s;
    Associate(run + ".", c.digits, c.rest);
  }

  lemma {:induction false} ShiftLeftmost(s: string, c: Capture)
    requires s != "" && Leftmost(s[1..], c) && forall j: nat :: !MatchAt(s, 0, j)
    ensures Leftmost(s, c.(at := c.at + 1))
  {
    forall i: nat, j: nat | i < c.at + 1 ensures !MatchAt(s, i, j) {
      if 0 < i < j {
        MatchShifts(s, i - 1, j - 1);
      }
    }
    MatchShifts(s, c.at, c.at + |c.prefix|);
    assert s[c.at + 1..] == s[1..][c.at..];
  }

  lemma {:induction false} ShiftNone(s: string)
    requires s != "" && (forall i: nat, j: nat :: !MatchAt(s[1..], i, j)) && forall j: nat :: !MatchAt(s, 0, j)
    ensures forall i: nat, j: nat :: !MatchAt(s, i, j)
  {
    forall i: nat, j: nat ensures !MatchAt(s, i, j) {
      if 0 < i < j {
        MatchShifts(s, i - 1, j - 1);
      }
    }
  }

  predicate Starts(s: string) {
    var run := Run(s);
    run != "" && |run| + 1 < |s| && s[|run|] == '.' && IsDigit(s[|run| + 1])
  }

  lemma {:induction false} NoStart(s: string)
    requires !Starts(s)
    ensures forall j: nat :: !MatchAt(s, 0, j)
  {
    forall j: nat ensures !MatchAt(s, 0, j) {
      if MatchAt(s, 0, j) {
        NoOtherEnd(s, j);
      }
    }
  }

  /** What is found is the leftmost match, with both groups as long as possible. */
  lemma {:induction false} FindIsLeftmost(s: string)
    ensures match Find(s)
            case None => forall i: nat, j: nat :: !MatchAt(s, i, j)
            case Some(c) => Leftmost(s, c)
    decreases |s|
  {
    if s != "" {
      if Starts(s) {
        FoundHere(s);
      } else {
        NoStart(s);
        FindIsLeftmost(s[1..]);
        if Find(s[1..]).Some? {
          ShiftLeftmost(s, Find(s[1..]).value);
        } else {
          ShiftNone(s);
        }
      }
    }
  }

  predicate HasPrefix(s: string, prefix: string) {
    prefix <= s
  }

  /** `max` is the largest timestamp that can be represented. */
  function Parse(max: nat, s: string): Result<FileMeta, Error> {
    match Find(s)
    case None => Err(NoMatch)
    case Some(c) =>
      FindIsLeftmost(s);
      var timestamp := NumberOf(c.digits);
      if timestamp > max then Err(InvalidTimestamp)
      else Ok(FileMeta(s, c.prefix, timestamp, HasPrefix(c.rest, ".c")))
  }

  // ------------------------------------------------------------------
  // Printing
  // ------------------------------------------------------------------

  function PlainKey(prefix: string, timestamp: nat): string {
    prefix + "." + Decimal(timestamp) + PARQUET
  }

  function Plain(prefix: string, timestamp: nat): FileMeta {
    FileMeta(PlainKey(prefix, timestamp), prefix, timestamp, false)
  }

  /** Replace every occurrence of `.parquet`. */
  function ReplaceParquet(s: string): string {
    if s == "" then ""
    else if HasPrefix(s, PARQUET) then COMPACTED + ReplaceParquet(s[|PARQUET|..])
    else [s[0]] + ReplaceParquet(s[1..])
  }

  function AsCompacted(prefix: string, timestamp: nat): FileMeta {
    FileMeta(ReplaceParquet(PlainKey(prefix, timestamp)), prefix, timestamp, true)
  }

  lemma {:induction false} ReplaceSkips(s: string, rest: string)
    requires forall c <- s :: c != '.'
    ensures ReplaceParquet(s + rest) == s + ReplaceParquet(rest)
  {
    if s == "" {
      assert s + rest == rest;
    } else {
      assert (s + rest)[0] == s[0] && (s + rest)[1..] == s[1..] + rest;
      assert s[0] in s && forall c <- s[1..] :: c in s;
      ReplaceSkips(s[1..], rest);
    }
  }

  lemma {:induction false} NoDots(s: string)
    requires forall c <- s :: IsPrefixChar(c)
    ensures forall c <- s :: c != '.'
  {
  }

  lemma {:induction false} ReplaceOnce(digits: string)
    requires digits != "" && AllDigits(digits)
    ensures ReplaceParquet("." + (digits + PARQUET)) == "." + (digits + COMPACTED)
  {
    var tail := "." + (digits + PARQUET);
    assert tail[1] == digits[0] && digits[0] in digits && PARQUET[1] == 'p';
    assert tail[1..] == digits + PARQUET;
    NoDots(digits);
    ReplaceSkips(digits, PARQUET);
    assert PARQUET[|PARQUET|..] == "" && COMPACTED + "" == COMPACTED;
  }

  lemma {:induction false} Associate(a: string, b: string, c: string)
    ensures a + b + c == a + (b + c)
  {
  }

  lemma {:induction false} Joined(a: string, b: string, c: string, d: string)
    ensures a + b + c + d == a + (b + (c + d))
  {
  }

  lemma {:induction false} CompactedKey(prefix: string, timestamp: nat)
    requires IsPrefix(prefix)
    ensures AsCompacted(prefix, timestamp).key == prefix + "." + Decimal(timestamp) + COMPACTED
  {
    var digits := Decimal(timestamp);
    DecimalRoundTrip(timestamp);
    Joined(prefix, ".", digits, PARQUET);
    Joined(prefix, ".", digits, COMPACTED);
    NoDots(prefix);
    var tail := "." + (digits + PARQUET);
    ReplaceSkips(prefix, tail);
    ReplaceOnce(digits);
  }

  // ------------------------------------------------------------------
  // Round trips
  // ------------------------------------------------------------------

  lemma {:induction false} RunStops(s: string, rest: string)
    requires (forall c <- s :: IsPrefixChar(c)) && (rest != "" ==> !IsPrefixChar(rest[0]))
    ensures Run(s + rest) == s
  {
    if s == "" {
      assert s + rest == rest;
    } else {
      assert (s + rest)[1..] == s[1..] + rest && s[0] in s;
      RunStops(s[1..], rest);
    }
  }

  lemma {:induction false} DigitRunStops(s: string, rest: string)
    requires AllDigits(s) && (rest != "" ==> !IsDigit(rest[0]))
    ensures DigitRun(s + rest) == s
  {
    if s == "" {
      assert s + rest == rest;
    } else {
      assert (s + rest)[1..] == s[1..] + rest && s[0] in s;
      DigitRunStops(s[1..], rest);
    }
  }

  lemma {:induction false} FindKey(prefix: string, digits: string, rest: string)
    requires IsPrefix(prefix) && digits != "" && AllDigits(digits) && (rest != "" ==> !IsDigit(rest[0]))
    ensures Find(prefix + ("." + (digits + rest))) == Some(Capture(0, prefix, digits, rest))
  {
    var tail := digits + rest;
    var key := prefix + ("." + tail);
    RunStops(prefix, "." + tail);
    assert tail[0] == digits[0] && digits[0] in digits;
    assert key[|prefix| + 1..] == tail;
    DigitRunStops(digits, rest);
    assert key[|prefix| + 1 + |digits|..] == rest;
  }

  /** Any suffix that does not go on with a digit leaves prefix and timestamp readable. */
  lemma {:induction false} ParseKey(max: nat, prefix: string, timestamp: nat, rest: string)
    requires IsPrefix(prefix) && timestamp <= max && (rest != "" ==> !IsDigit(rest[0]))
    ensures var key := prefix + "." + Decimal(timestamp) + rest;
            Parse(max, key) == Ok(FileMeta(key, prefix, timestamp, HasPrefix(rest, ".c")))
  {
    DecimalRoundTrip(timestamp);
    Joined(prefix, ".", Decimal(timestamp), rest);
    FindKey(prefix, Decimal(timestamp), rest);
  }

  lemma {:induction false} ParsedPrefix(max: nat, s: string)
    requires Parse(max, s).Ok?
    ensures IsPrefix(Parse(max, s).value.prefix)
  {
    FindIsLeftmost(s);
  }

  /**
   Parsing a printed key gives back what was printed exactly when the prefix
   is one or more lower-case letters, digits, underscores or commas.
   */
  lemma {:induction false} PlainRoundTrip(max: nat, prefix: string, timestamp: nat)
    requires timestamp <= max
    ensures Parse(max, Plain(prefix, timestamp).key) == Ok(Plain(prefix, timestamp)) <==> IsPrefix(prefix)
  {
    if IsPrefix(prefix) {
      ParseKey(max, prefix, timestamp, PARQUET);
      assert PARQUET[1] == 'p' && ".c"[1] == 'c';
    } else if Parse(max, PlainKey(prefix, timestamp)).Ok? {
      ParsedPrefix(max, PlainKey(prefix, timestamp));
    }
  }

  lemma {:induction false} CompactedRoundTrip(max: nat, prefix: string, timestamp: nat)
    requires timestamp <= max
    ensures Parse(max, AsCompacted(prefix, timestamp).key) == Ok(AsCompacted(prefix, timestamp)) <==> IsPrefix(prefix)
  {
    if IsPrefix(prefix) {
      CompactedKey(prefix, timestamp);
      ParseKey(max, prefix, timestamp, COMPACTED);
      assert HasPrefix(COMPACTED, ".c");
    } else if Parse(max, AsCompacted(prefix, timestamp).key).Ok? {
      ParsedPrefix(max, AsCompacted(prefix, timestamp).key);
    }
  }

  /** A marker is itself listed as a file: as an uncompacted one with its source's timestamp. */
  lemma {:induction false} MarkersParseAsFiles(max: nat, prefix: string, timestamp: nat)
    requires timestamp <= max && IsPrefix(prefix)
    ensures var marker := PlainKey(prefix, timestamp) + PROCESSED;
            Parse(max, marker) == Ok(FileMeta(marker, prefix, timestamp, false))
  {
    var rest := PARQUET + PROCESSED;
    Associate(prefix + "." + Decimal(timestamp), PARQUET, PROCESSED);
    ParseKey(max, prefix, timestamp, rest);
    assert rest[1] == 'p' && ".c"[1] == 'c';
  }

  // ------------------------------------------------------------------
  // Key order
  // ------------------------------------------------------------------

  /** Strict lexicographic order. */
  predicate Less(a: string, b: string) {
    if b == "" then false
    else if a == "" then true
    else a[0] < b[0] || (a[0] == b[0] && Less(a[1..], b[1..]))
  }

  lemma {:induction false} LessAfterSame(s: string, a: string, b: string)
    ensures Less(s + a, s + b) == Less(a, b)
  {
    if s == "" {
      assert s + a == a && s + b == b;
    } else {
      assert (s + a)[1..] == s[1..] + a && (s + b)[1..] == s[1..] + b;
      LessAfterSame(s[1..], a, b);
    }
  }

  lemma {:induction false} LessNext(a: string, b: string, c: char, d: char)
    requires |a| == |b|
    ensures Less(a + [c], b + [d]) == (Less(a, b) || (a == b && c < d))
  {
    if a == "" {
      assert a + [c] == [c] && b + [d] == [d] && [c][1..] == "" && [d][1..] == "";
    } else {
      assert (a + [c])[1..] == a[1..] + [c] && (b + [d])[1..] == b[1..] + [d];
      assert a == b <==> a[0] == b[0] && a[1..] == b[1..];
      LessNext(a[1..], b[1..], c, d);
    }
  }

  /** Among timestamps of one decimal width the key order is the numeric order. */
  lemma {:induction false} EqualWidthOrder(a: nat, b: nat)
    requires |Decimal(a)| == |Decimal(b)|
    ensures Less(Decimal(a), Decimal(b)) <==> a < b
  {
    if a < 10 {
      assert b < 10 by {
        if b >= 10 {
          DecimalRoundTrip(b / 10);
        }
      }
      LessNext("", "", Digit(a), Digit(b));
      assert "" + [Digit(a)] == Decimal(a) && "" + [Digit(b)] == Decimal(b);
    } else {
      assert b >= 10 by {
        if b < 10 {
          DecimalRoundTrip(a / 10);
        }
      }
      EqualWidthOrder(a / 10, b / 10);
      LessNext(Decimal(a / 10), Decimal(b / 10), Digit(a % 10), Digit(b % 10));
      DecimalRoundTrip(a / 10);
      DecimalRoundTrip(b / 10);
    }
  }

  /** The suffix behind the digits never decides: a dot sorts before every digit. */
  lemma {:induction false} SuffixesDoNotMatter(x: string, y: string, u: string, v: string)
    requires AllDigits(x) && AllDigits(y) && !(y <= x)
    requires u != "" && u[0] == '.' && (v != "" ==> v[0] == '.')
    ensures Less(x + u, y + v) == Less(x, y)
  {
    assert y[0] in y;
    if x == "" {
      assert x + u == u && (y + v)[0] == y[0] && Less(u, y + v);
    } else {
      assert x[0] in x;
      assert (x + u)[0] == x[0] && (y + v)[0] == y[0];
      if x[0] == y[0] {
        assert (x + u)[1..] == x[1..] + u && (y + v)[1..] == y[1..] + v;
        assert forall c <- x[1..] :: c in x;
        assert forall c <- y[1..] :: c in y;
        assert y[1..] <= x[1..] ==> y <= x;
        SuffixesDoNotMatter(x[1..], y[1..], u, v);
      }
    }
  }

  lemma {:induction false} LongerIsLarger(a: nat, b: nat)
    requires Decimal(b) <= Decimal(a)
    ensures b <= a
  {
    if |Decimal(b)| == |Decimal(a)| {
      DecimalRoundTrip(a);
      DecimalRoundTrip(b);
      assert Decimal(a) == Decimal(b);
    } else {
      assert a >= 10 by {
        DecimalRoundTrip(b);
      }
      assert Decimal(b) <= Decimal(a / 10);
      LongerIsLarger(a / 10, b);
    }
  }

  /** A later file sorts behind the start-after key exactly when its timestamp's digits do. */
  lemma {:induction false} LaterKeyOrder(prefix: string, after: nat, timestamp: nat, rest: string)
    requires after < timestamp && (rest != "" ==> rest[0] == '.')
    ensures Less(PlainKey(prefix, after), prefix + "." + Decimal(timestamp) + rest) ==
            Less(Decimal(after), Decimal(timestamp))
  {
    if Decimal(timestamp) <= Decimal(after) {
      LongerIsLarger(after, timestamp);
      assert false;
    }
    DecimalRoundTrip(after);
    DecimalRoundTrip(timestamp);
    Associate(prefix + ".", Decimal(after), PARQUET);
    Associate(prefix + ".", Decimal(timestamp), rest);
    LessAfterSame(prefix + ".", Decimal(after) + PARQUET, Decimal(timestamp) + rest);
    SuffixesDoNotMatter(Decimal(after), Decimal(timestamp), PARQUET, rest);
  }

  // ------------------------------------------------------------------
  // Listing
  // ------------------------------------------------------------------

  predicate InWindow(after: Option<nat>, before: Option<nat>, timestamp: nat) {
    (after == None || after.value < timestamp) && (before == None || timestamp <= before.value)
  }

  /** Parse every key and keep those in the window; one key that does not parse fails the listing. */
  function Collect(max: nat, keys: seq<string>, after: Option<nat>, before: Option<nat>): Result<seq<FileMeta>, Error> {
    if keys == [] then Ok([])
    else
      match Parse(max, keys[0])
      case Err(e) => Err(e)
      case Ok(meta) =>
        match Collect(max, keys[1..], after, before)
        case Err(e) => Err(e)
        case Ok(rest) => Ok((if InWindow(after, before, meta.timestamp) then [meta] else []) + rest)
  }

  /** The keys of a bucket under a prefix, from behind `startAfter`. */
  function ListObjects(bucket: seq<string>, prefix: string, startAfter: Option<string>): seq<string> {
    if bucket == [] then []
    else
      (if HasPrefix(bucket[0], prefix) && (startAfter == None || Less(startAfter.value, bucket[0])) then [bucket[0]]
       else [])
      + ListObjects(bucket[1..], prefix, startAfter)
  }

  function ListFiles(max: nat, bucket: seq<string>, prefix: string, after: Option<nat>, before: Option<nat>)
    : Result<seq<FileMeta>, Error>
  {
    var startAfter := if after == None then None else Some(PlainKey(prefix, after.value));
    Collect(max, ListObjects(bucket, prefix, startAfter), after, before)
  }

  /** The same listing without the start-after key. */
  function ListAll(max: nat, bucket: seq<string>, prefix: string, after: Option<nat>, before: Option<nat>)
    : Result<seq<FileMeta>, Error>
  {
    Collect(max, ListObjects(bucket, prefix, None), after, before)
  }

  ghost predicate AllParse(max: nat, bucket: seq<string>, prefix: string) {
    forall key <- bucket :: HasPrefix(key, prefix) ==> Parse(max, key).Ok?
  }

  /** If the file is listed and in the window, its key sorts behind the printed key of `after`. */
  predicate Uncut(max: nat, prefix: string, after: nat, before: Option<nat>, key: string) {
    HasPrefix(key, prefix) && Parse(max, key).Ok? && InWindow(Some(after), before, Parse(max, key).value.timestamp) ==>
      Less(PlainKey(prefix, after), key)
  }

  ghost predicate NoneCut(max: nat, bucket: seq<string>, prefix: string, after: nat, before: Option<nat>) {
    forall key <- bucket :: Uncut(max, prefix, after, before, key)
  }

  /** One more key, in front of what was listed with and without the start-after key. */
  lemma {:induction false} PushdownStep(max: nat, prefix: string, key: string, cut: seq<string>, all: seq<string>,
                                        after: nat, before: Option<nat>)
    requires HasPrefix(key, prefix) && Parse(max, key).Ok?
    requires Collect(max, cut, Some(after), before).Ok? && Collect(max, all, Some(after), before).Ok?
    ensures var kept := Collect(max, (if Less(PlainKey(prefix, after), key) then [key] else []) + cut,
                                Some(after), before);
            var full := Collect(max, [key] + all, Some(after), before);
            var keptBefore := Collect(max, cut, Some(after), before).value;
            var fullBefore := Collect(max, all, Some(after), before).value;
            && kept.Ok? && full.Ok?
            && |kept.value| - |keptBefore| ==
               (|full.value| - |fullBefore|) - (if Uncut(max, prefix, after, before, key) then 0 else 1)
            && (Uncut(max, prefix, after, before, key) && keptBefore == fullBefore ==> kept == full)
  {
    CollectNext(max, key, all, Some(after), before);
    CollectNext(max, key, cut, Some(after), before);
    assert [] + cut == cut;
    assert [] + Collect(max, all, Some(after), before).value == Collect(max, all, Some(after), before).value;
  }

  lemma {:induction false} PushdownLength(max: nat, bucket: seq<string>, prefix: string, after: nat,
                                          before: Option<nat>)
    requires AllParse(max, bucket, prefix)
    ensures var cut := ListFiles(max, bucket, prefix, Some(after), before);
            var all := ListAll(max, bucket, prefix, Some(after), before);
            cut.Ok? && all.Ok? && |cut.value| <= |all.value| &&
            (if NoneCut(max, bucket, prefix, after, before) then cut == all else |cut.value| < |all.value|)
  {
    if bucket != [] {
      var key, rest := bucket[0], bucket[1..];
      assert bucket == [key] + rest;
      assert key in bucket && forall k <- rest :: k in bucket;
      PushdownLength(max, rest, prefix, after, before);
      var start := Some(PlainKey(prefix, after));
      if HasPrefix(key, prefix) {
        PushdownStep(max, prefix, key, ListObjects(rest, prefix, start), ListObjects(rest, prefix, None),
                     after, before);
      } else {
        assert ListObjects(bucket, prefix, start) == ListObjects(rest, prefix, start);
        assert ListObjects(bucket, prefix, None) == ListObjects(rest, prefix, None);
      }
    }
  }

  lemma {:induction false} CollectNext(max: nat, key: string, keys: seq<string>, after: Option<nat>,
                                       before: Option<nat>)
    requires Parse(max, key).Ok? && Collect(max, keys, after, before).Ok?
    ensures var meta := Parse(max, key).value;
            Collect(max, [key] + keys, after, before) ==
            Ok((if InWindow(after, before, meta.timestamp) then [meta] else [])
               + Collect(max, keys, after, before).value)
  {
    assert ([key] + keys)[1..] == keys;
  }

  /**
   For every bucket whose keys parse: listing behind the printed key of `after`
   returns what filtering the whole listing returns exactly when no file in
   the window has a key that sorts before it.
   */
  lemma {:induction false} PushdownIsExact(max: nat, bucket: seq<string>, prefix: string, after: nat,
                                           before: Option<nat>)
    requires AllParse(max, bucket, prefix)
    ensures ListFiles(max, bucket, prefix, Some(after), before) ==
              ListAll(max, bucket, prefix, Some(after), before) <==>
            NoneCut(max, bucket, prefix, after, before)
  {
    PushdownLength(max, bucket, prefix, after, before);
  }

  /** A file of a type: its prefix, its digits, and nothing or a suffix behind a dot. */
  ghost predicate IsFileKey(max: nat, prefix: string, key: string) {
    exists timestamp: nat, rest: string ::
      timestamp <= max && (rest != "" ==> rest[0] == '.') && key == prefix + "." + Decimal(timestamp) + rest
  }

  lemma {:induction false} FileKeyParses(max: nat, prefix: string, key: string) returns (timestamp: nat, rest: string)
    requires IsPrefix(prefix) && IsFileKey(max, prefix, key)
    ensures timestamp <= max && (rest != "" ==> rest[0] == '.') && key == prefix + "." + Decimal(timestamp) + rest
    ensures Parse(max, key).Ok? && Parse(max, key).value.timestamp == timestamp
    ensures Parse(max, key).value.prefix == prefix
  {
    timestamp, rest :| timestamp <= max && (rest != "" ==> rest[0] == '.') &&
                       key == prefix + "." + Decimal(timestamp) + rest;
    ParseKey(max, prefix, timestamp, rest);
  }

  /** Of a longer type all keys sort behind, or before, those of the prefix: only the comma comes before the dot. */
  lemma {:induction false} LongerTypeOrder(prefix: string, more: string, after: nat, rest: string)
    requires more != "" && IsPrefixChar(more[0])
    ensures Less(PlainKey(prefix, after), prefix + (more + rest)) <==> more[0] != ','
  {
    var tail := "." + (Decimal(after) + PARQUET);
    Joined(prefix, ".", Decimal(after), PARQUET);
    LessAfterSame(prefix, tail, more + rest);
    assert (more + rest)[0] == more[0] && tail[0] == '.';
  }

  /**
   A file in the window is found exactly when, if it is of the type asked for,
   its timestamp's digits sort behind those of `after`, and if it is of a
   longer one, that does not go on with a comma.
   */
  lemma {:induction false} UncutExactly(max: nat, prefix: string, other: string, key: string, after: nat)
    requires IsPrefix(prefix) && IsPrefix(other) && prefix <= other && IsFileKey(max, other, key)
    ensures Parse(max, key).Ok? && Parse(max, key).value.prefix == other
    ensures after < Parse(max, key).value.timestamp ==>
              (Less(PlainKey(prefix, after), key) <==>
                 if other == prefix then Less(Decimal(after), Decimal(Parse(max, key).value.timestamp))
                 else other[|prefix|] != ',')
  {
    var timestamp, rest := FileKeyParses(max, other, key);
    if other == prefix {
      if after < timestamp {
        LaterKeyOrder(prefix, after, timestamp, rest);
      }
    } else {
      var more := other[|prefix|..];
      var tail := "." + (Decimal(timestamp) + rest);
      assert more[0] in other && other == prefix + more;
      LongerTypeOrder(prefix, more, after, tail);
      Joined(other, ".", Decimal(timestamp), rest);
      Associate(prefix, more, tail);
    }
  }

  ghost predicate OneType(max: nat, bucket: seq<string>, prefix: string) {
    IsPrefix(prefix) && forall key <- bucket :: HasPrefix(key, prefix) ==> IsFileKey(max, prefix, key)
  }

  /** In particular nothing is missed of one type when all timestamps have as many digits as `after`. */
  lemma {:induction false} EqualWidthPushdown(max: nat, bucket: seq<string>, prefix: string, after: nat,
                                              before: Option<nat>)
    requires OneType(max, bucket, prefix)
    requires forall key <- bucket :: HasPrefix(key, prefix) && Parse(max, key).Ok? ==>
               |Decimal(Parse(max, key).value.timestamp)| == |Decimal(after)|
    ensures ListFiles(max, bucket, prefix, Some(after), before) == ListAll(max, bucket, prefix, Some(after), before)
  {
    forall key | key in bucket && HasPrefix(key, prefix)
      ensures Parse(max, key).Ok? && Uncut(max, prefix, after, before, key)
    {
      UncutExactly(max, prefix, prefix, key, after);
      EqualWidthOrder(after, Parse(max, key).value.timestamp);
    }
    PushdownIsExact(max, bucket, prefix, after, before);
  }

  /** A longer timestamp can be cut: 1000 is later than 999 but its key sorts before. */
  lemma {:induction false} LongerTimestampIsCut()
    ensures !Less(PlainKey("a", 999), PlainKey("a", 1000))
  {
    assert Decimal(100) == Decimal(10) + [Digit(0)] && Decimal(10) == Decimal(1) + [Digit(0)];
    assert Decimal(99) == Decimal(9) + [Digit(9)];
    LaterKeyOrder("a", 999, 1000, PARQUET);
    assert Decimal(999)[0] == '9' && Decimal(1000)[0] == '1';
  }

  /** Listing one type yields the files of every type whose name starts with it, and of no other. */
  lemma {:induction false} ListedTypesExactly(max: nat, prefix: string, other: string, timestamp: nat)
    requires IsPrefix(prefix) && IsPrefix(other) && timestamp <= max
    ensures var key := PlainKey(other, timestamp);
            && Parse(max, key).Ok? && Parse(max, key).value.prefix == other
            && (HasPrefix(key, prefix) <==> prefix <= other)
  {
    var key := PlainKey(other, timestamp);
    ParseKey(max, other, timestamp, PARQUET);
    assert key[|other|] == '.';
    assert |other| < |prefix| ==> prefix[|other|] in prefix;
  }
}
