/** JavaScript strings as the bot sees them: sequences of UTF-16 code units,
    with the handful of built-in string operations the report pipeline uses
    (`trim`, `split(/\s+/)`, `toUpperCase`, `padEnd`, `slice`, `join`,
    `String(n)` and code-point iteration). */
module Text {

  datatype Option<+T> = None | Some(value: T) {
    /** The contained value, or `default` when there is none (the source's `?? default`). */
    function GetOr(default: T): T {
      match this
      case Some(v) => v
      case None => default
    }
  }

  /** One UTF-16 code unit, the element of a JavaScript string. */
  type CodeUnit = u: int | 0 <= u < 0x1_0000

  /** A JavaScript string; `length`, `padEnd` and `slice` count these units. */
  type Str = seq<CodeUnit>

  const Space: CodeUnit := 0x20
  const Dot: CodeUnit := 0x2E
  const Newline: CodeUnit := 0x0A
  const Minus: CodeUnit := 0x2D
  const MaxCodePoint := 0x10_FFFF

  predicate IsHighSurrogate(u: CodeUnit) { 0xD800 <= u <= 0xDBFF }
  predicate IsLowSurrogate(u: CodeUnit) { 0xDC00 <= u <= 0xDFFF }

  // ---------------------------------------------------------------------
  // UTF-16 encoding and code-point iteration

  /** The code units of one code point, as `String.fromCodePoint` produces them. */
  function EncodeCodePoint(cp: int): (r: Str)
    requires 0 <= cp <= MaxCodePoint
    ensures cp < 0x1_0000 ==> r == [cp]
    ensures cp >= 0x1_0000 ==> |r| == 2 && IsHighSurrogate(r[0]) && IsLowSurrogate(r[1])
    ensures cp >= 0x1_0000 ==> (r[0] as int - 0xD800) * 0x400 + (r[1] as int - 0xDC00) + 0x1_0000 == cp
  {
    if cp < 0x1_0000 then [cp]
    else [0xD800 + (cp - 0x1_0000) / 0x400, 0xDC00 + (cp - 0x1_0000) % 0x400]
  }

  predicate ValidCodePoints(cps: seq<int>) {
    forall i :: 0 <= i < |cps| ==> 0 <= cps[i] <= MaxCodePoint
  }

  /** Unicode scalar values: code points that are not surrogates. */
  predicate ScalarValues(cps: seq<int>) {
    forall i :: 0 <= i < |cps| ==> 0 <= cps[i] <= MaxCodePoint && !(0xD800 <= cps[i] <= 0xDFFF)
  }

  function EncodeCodePoints(cps: seq<int>): (r: Str)
    requires ValidCodePoints(cps)
  {
    if cps == [] then [] else EncodeCodePoint(cps[0]) + EncodeCodePoints(cps[1..])
  }

  /** An ASCII string literal as code units, one unit per character. */
  function Ascii(s: string): (r: Str)
    requires forall i :: 0 <= i < |s| ==> s[i] as int < 0x80
    ensures |r| == |s| && forall i :: 0 <= i < |s| ==> r[i] == s[i] as int
  {
    seq(|s|, i requires 0 <= i < |s| => s[i] as int)
  }

  /** The code points that iterating a string yields (`[...s]`): a high
      surrogate followed by a low surrogate is one code point, every other
      unit (a lone surrogate included) is one code point of its own. */
  function CodePoints(s: Str): (r: seq<int>)
    ensures |r| <= |s|
    ensures ValidCodePoints(r)
  {
    if s == [] then []
    else if |s| >= 2 && IsHighSurrogate(s[0]) && IsLowSurrogate(s[1]) then
      [(s[0] as int - 0xD800) * 0x400 + (s[1] as int - 0xDC00) + 0x1_0000] + CodePoints(s[2..])
    else [s[0]] + CodePoints(s[1..])
  }

  /** The first code unit of each code point (`charCodeAt(0)` of each element of `[...s]`). */
  function LeadUnits(s: Str): (r: seq<CodeUnit>)
    ensures |r| == |CodePoints(s)|
  {
    if s == [] then []
    else if |s| >= 2 && IsHighSurrogate(s[0]) && IsLowSurrogate(s[1]) then [s[0]] + LeadUnits(s[2..])
    else [s[0]] + LeadUnits(s[1..])
  }

  /** Iterating the encoding of scalar values gives those values back. */
  lemma {:induction false} CodePointsOfEncoding(cps: seq<int>)
    requires ScalarValues(cps)
    ensures CodePoints(EncodeCodePoints(cps)) == cps
  {
    if cps != [] {
      var e := EncodeCodePoint(cps[0]);
      var rest := EncodeCodePoints(cps[1..]);
      assert ScalarValues(cps[1..]) by {
        forall i | 0 <= i < |cps[1..]| ensures 0 <= cps[1..][i] <= MaxCodePoint && !(0xD800 <= cps[1..][i] <= 0xDFFF) {
          assert cps[1..][i] == cps[i + 1];
        }
      }
      CodePointsOfEncoding(cps[1..]);
      if cps[0] < 0x1_0000 {
        assert (e + rest)[1..] == rest;
      } else {
        assert (e + rest)[2..] == rest;
      }
    }
  }

  // ---------------------------------------------------------------------
  // Whitespace, trim and split

  /** The units matched by the regular-expression class `\s` (and removed by
      `trim`): ECMAScript WhiteSpace and LineTerminator. */
  predicate IsWhitespace(u: CodeUnit) {
    u == 0x09 || u == 0x0A || u == 0x0B || u == 0x0C || u == 0x0D || u == 0x20
    || u == 0xA0 || u == 0x1680 || (0x2000 <= u <= 0x200A) || u == 0x2028 || u == 0x2029
    || u == 0x202F || u == 0x205F || u == 0x3000 || u == 0xFEFF
  }

  predicate NoWhitespace(s: Str) {
    forall i :: 0 <= i < |s| ==> !IsWhitespace(s[i])
  }

  /** The end of `s[lo..e]` once its trailing whitespace is dropped. */
  function TrimmedEnd(s: Str, lo: nat, e: nat): (hi: nat)
    requires lo <= e <= |s|
    ensures lo <= hi <= e
    ensures hi > lo ==> !IsWhitespace(s[hi - 1])
    ensures forall i :: hi <= i < e ==> IsWhitespace(s[i])
    decreases e
  {
    if e == lo || !IsWhitespace(s[e - 1]) then e else TrimmedEnd(s, lo, e - 1)
  }

  /** `s.trim()`: the part of `s` between its leading whitespace, which ends
      at `SkipWs(s, 0)`, and its trailing whitespace. */
  function Trim(s: Str): (r: Str)
    ensures r != [] ==> !IsWhitespace(r[0]) && !IsWhitespace(r[|r| - 1])
    ensures s != [] && !IsWhitespace(s[0]) && !IsWhitespace(s[|s| - 1]) ==> r == s
    ensures var k := SkipWs(s, 0);
      k + |r| <= |s| && r == s[k..k + |r|]
      && (forall i :: 0 <= i < k ==> IsWhitespace(s[i]))
      && (forall i :: k + |r| <= i < |s| ==> IsWhitespace(s[i]))
  {
    var lo := SkipWs(s, 0);
    SkipWsRun(s, 0);
    var hi := TrimmedEnd(s, lo, |s|);
    assert s != [] && !IsWhitespace(s[0]) ==> lo == 0;
    assert s[lo..hi] == s[lo..lo + (hi - lo)];
    s[lo..hi]
  }

  /** The first whitespace index at or after `k`, or `|s|` when there is none. */
  function NextWs(s: Str, k: nat): (e: nat)
    requires k <= |s|
    ensures k <= e <= |s|
    ensures e < |s| ==> IsWhitespace(s[e])
    decreases |s| - k
  {
    if k == |s| || IsWhitespace(s[k]) then k else NextWs(s, k + 1)
  }

  /** No whitespace lies between `k` and `NextWs(s, k)`. */
  lemma {:induction false} NextWsRun(s: Str, k: nat)
    requires k <= |s|
    ensures forall j :: k <= j < NextWs(s, k) ==> !IsWhitespace(s[j])
    decreases |s| - k
  {
    if k < |s| && !IsWhitespace(s[k]) {
      NextWsRun(s, k + 1);
    }
  }

  /** The first non-whitespace index at or after `k`, or `|s|` when there is none. */
  function SkipWs(s: Str, k: nat): (e: nat)
    requires k <= |s|
    ensures k <= e <= |s|
    ensures e < |s| ==> !IsWhitespace(s[e])
    decreases |s| - k
  {
    if k == |s| || !IsWhitespace(s[k]) then k else SkipWs(s, k + 1)
  }

  /** Only whitespace lies between `k` and `SkipWs(s, k)`. */
  lemma {:induction false} SkipWsRun(s: Str, k: nat)
    requires k <= |s|
    ensures forall j :: k <= j < SkipWs(s, k) ==> IsWhitespace(s[j])
    decreases |s| - k
  {
    if k < |s| && IsWhitespace(s[k]) {
      SkipWsRun(s, k + 1);
    }
  }

  /** The units of `s` from index `i` up to (not including) `j`, built one
      unit at a time; `PieceIsSlice` shows it is the slice `s[i..j]`. */
  function Piece(s: Str, i: nat, j: nat): (p: Str)
    requires i <= j <= |s|
    ensures |p| == j - i
    ensures forall t :: 0 <= t < |p| ==> p[t] == s[i + t]
    decreases j - i
  {
    if i == j then [] else [s[i]] + Piece(s, i + 1, j)
  }

  lemma PieceIsSlice(s: Str, i: nat, j: nat)
    requires i <= j <= |s|
    ensures Piece(s, i, j) == s[i..j]
  {
  }

  /** The pieces of `s[k..]` between maximal runs of whitespace. */
  function SplitFrom(s: Str, k: nat): (r: seq<Str>)
    requires k <= |s|
    ensures |r| >= 1
    ensures r[0] == Piece(s, k, NextWs(s, k))
    ensures |r| == 1 <==> NextWs(s, k) == |s|
    decreases |s| - k
  {
    var e := NextWs(s, k);
    if e == |s| then [Piece(s, k, e)]
    else [Piece(s, k, e)] + SplitFrom(s, SkipWs(s, e))
  }

  /** No piece of a split holds whitespace. */
  lemma {:induction false} SplitFromPieces(s: Str, k: nat)
    requires k <= |s|
    ensures forall i :: 0 <= i < |SplitFrom(s, k)| ==> NoWhitespace(SplitFrom(s, k)[i])
    decreases |s| - k
  {
    var e := NextWs(s, k);
    NextWsRun(s, k);
    if e < |s| {
      SplitFromPieces(s, SkipWs(s, e));
    }
  }

  /** `s.split(/\s+/)`: the pieces between maximal runs of whitespace.  A
      leading run yields an empty first piece and a trailing run an empty last
      piece; the empty string yields one empty piece. */
  function SplitWs(s: Str): (r: seq<Str>)
    ensures |r| >= 1
    ensures forall i :: 0 <= i < |r| ==> NoWhitespace(r[i])
    ensures r[0] == Piece(s, 0, NextWs(s, 0))
    ensures |r| == 1 <==> NoWhitespace(s)
  {
    NextWsRun(s, 0);
    SplitFromPieces(s, 0);
    SplitFrom(s, 0)
  }

  /** Where the run of non-whitespace units that ends at index `n` begins. */
  function RunStart(s: Str, n: nat): (k: nat)
    requires n <= |s|
    ensures k <= n
    ensures k > 0 ==> IsWhitespace(s[k - 1])
    ensures forall j :: k <= j < n ==> !IsWhitespace(s[j])
  {
    if n == 0 || IsWhitespace(s[n - 1]) then n else RunStart(s, n - 1)
  }

  /** Where the text after the last whitespace unit of `s` begins: just past
      that unit, or 0 when `s` has no whitespace. */
  function LastPieceStart(s: Str): (k: nat)
    ensures k <= |s|
    ensures k > 0 ==> IsWhitespace(s[k - 1])
    ensures forall j :: k <= j < |s| ==> !IsWhitespace(s[j])
  {
    RunStart(s, |s|)
  }

  /** The end of `s` after its last whitespace unit: the last piece of
      `s.split(/\s+/)` (see `SplitWsLast`). */
  function LastPiece(s: Str): (p: Str)
    ensures NoWhitespace(p)
    ensures |p| <= |s| && p == s[|s| - |p|..]
    ensures |p| < |s| ==> IsWhitespace(s[|s| - |p| - 1])
    ensures s != [] && !IsWhitespace(s[|s| - 1]) ==> p != []
  {
    var k := LastPieceStart(s);
    PieceIsSlice(s, k, |s|);
    Piece(s, k, |s|)
  }

  /** The last piece of `SplitFrom(s, k)` starts at `k` or at
      `LastPieceStart(s)`, whichever is later. */
  lemma {:induction false} SplitFromLast(s: Str, k: nat)
    requires k <= |s|
    ensures var r := SplitFrom(s, k);
      r[|r| - 1] == Piece(s, Max(k, LastPieceStart(s)), |s|)
    decreases |s| - k
  {
    var e := NextWs(s, k);
    var m := LastPieceStart(s);
    NextWsRun(s, k);
    if e < |s| {
      var k' := SkipWs(s, e);
      SkipWsRun(s, e);
      SplitFromLast(s, k');
      assert IsWhitespace(s[k' - 1]);
      assert k' <= m;
      var r := SplitFrom(s, k);
      var rest := SplitFrom(s, k');
      assert r == [Piece(s, k, e)] + rest;
      assert r[|r| - 1] == rest[|rest| - 1];
    } else {
      assert m <= k;
    }
  }

  /** The last element of `SplitWs(s)` is `LastPiece(s)`. */
  lemma SplitWsLast(s: Str)
    ensures SplitWs(s)[|SplitWs(s)| - 1] == LastPiece(s)
  {
    SplitFromLast(s, 0);
  }

  /** `parts.join(sep)`. */
  function Join(parts: seq<Str>, sep: Str): Str {
    if parts == [] then []
    else if |parts| == 1 then parts[0]
    else parts[0] + sep + Join(parts[1..], sep)
  }

  /** `b` occupies `s` from index `d` to the end. */
  predicate TailAt(s: Str, d: nat, b: Str) {
    d + |b| == |s| && forall j :: 0 <= j < |b| ==> s[d + j] == b[j]
  }

  /** Words: non-empty pieces without whitespace. */
  predicate Words(ps: seq<Str>) {
    forall k :: 0 <= k < |ps| ==> ps[k] != [] && NoWhitespace(ps[k])
  }

  /** Words joined by single spaces start with the first word's first unit
      and end with the last word's last unit. */
  lemma {:induction false} JoinEnds(ps: seq<Str>)
    requires |ps| >= 1 && Words(ps)
    ensures var j := Join(ps, [Space]);
      |j| >= |ps[0]| && j[..|ps[0]|] == ps[0] && j[|j| - 1] == ps[|ps| - 1][|ps[|ps| - 1]| - 1]
  {
    if |ps| >= 2 {
      JoinEnds(ps[1..]);
      var rest := Join(ps[1..], [Space]);
      assert Join(ps, [Space]) == ps[0] + ([Space] + rest);
    }
  }

  /** Joining ends with the separator and the last part. */
  lemma {:induction false} JoinSnoc(ps: seq<Str>, sep: Str)
    requires |ps| >= 2
    ensures Join(ps, sep) == Join(ps[..|ps| - 1], sep) + sep + ps[|ps| - 1]
  {
    if |ps| > 2 {
      JoinSnoc(ps[1..], sep);
      assert ps[..|ps| - 1][1..] == ps[1..][..|ps| - 2];
    }
  }

  /** The parts written one after another, with nothing between them. */
  function Concat(parts: seq<Str>): Str {
    if parts == [] then [] else Concat(parts[..|parts| - 1]) + parts[|parts| - 1]
  }

  /** Concatenating the first `k + 1` parts appends part `k`. */
  lemma ConcatSnoc(parts: seq<Str>, k: nat)
    requires k < |parts|
    ensures Concat(parts[..k + 1]) == Concat(parts[..k]) + parts[k]
  {
    assert parts[..k + 1][..k] == parts[..k];
  }

  /** A join of three or more parts is the first part, a separator, the
      join of the middle parts, a separator and the last part. */
  lemma JoinOuter(ps: seq<Str>, sep: Str)
    requires |ps| >= 3
    ensures Join(ps, sep) == ps[0] + sep + Join(ps[1..|ps| - 1], sep) + sep + ps[|ps| - 1]
  {
    var tail := ps[1..];
    JoinSnoc(tail, sep);
    assert tail[..|tail| - 1] == ps[1..|ps| - 1];
    assert Join(ps, sep) == ps[0] + sep + Join(tail, sep);
  }

  /** One step of `SplitFrom` when a whitespace unit follows the first piece. */
  lemma SplitFromStep(s: Str, k: nat, e: nat, k': nat)
    requires k <= |s| && NextWs(s, k) == e < |s| && SkipWs(s, e) == k'
    ensures SplitFrom(s, k) == [Piece(s, k, e)] + SplitFrom(s, k')
  {
  }

  /** The last step of `SplitFrom`: no whitespace follows `k`. */
  lemma SplitFromEnd(s: Str, k: nat, e: nat)
    requires k <= |s| && NextWs(s, k) == e == |s|
    ensures SplitFrom(s, k) == [Piece(s, k, e)]
  {
  }

  /** The facts of `NextWs` single out one index. */
  lemma {:induction false} NextWsUnique(s: Str, k: nat, e: nat)
    requires k <= e <= |s|
    requires forall j :: k <= j < e ==> !IsWhitespace(s[j])
    requires e < |s| ==> IsWhitespace(s[e])
    ensures NextWs(s, k) == e
    decreases e - k
  {
    if k < e {
      NextWsUnique(s, k + 1, e);
    }
  }

  /** The facts of `SkipWs` single out one index. */
  lemma {:induction false} SkipWsUnique(s: Str, k: nat, e: nat)
    requires k <= e <= |s|
    requires forall j :: k <= j < e ==> IsWhitespace(s[j])
    requires e < |s| ==> !IsWhitespace(s[e])
    ensures SkipWs(s, k) == e
    decreases e - k
  {
    if k < e {
      SkipWsUnique(s, k + 1, e);
    }
  }

  /** A word that fills `s` from `k` to the end is the single piece there. */
  lemma WordAt(s: Str, k: nat, w: Str)
    requires TailAt(s, k, w) && NoWhitespace(w)
    ensures NextWs(s, k) == |s| && Piece(s, k, |s|) == w
  {
    forall j | k <= j < |s| ensures !IsWhitespace(s[j]) {
      assert s[k + (j - k)] == w[j - k];
    }
    NextWsUnique(s, k, |s|);
    forall t | 0 <= t < |w| ensures Piece(s, k, |s|)[t] == w[t] {
      assert s[k + t] == w[t];
    }
  }

  /** Where `w + " " + rest` fills `s` from `k` on, with `w` a word and
      `rest` starting with a non-whitespace unit, the first piece at `k` is
      `w` and the next one starts right after the single space. */
  lemma WordThenSpace(s: Str, k: nat, w: Str, rest: Str)
    requires TailAt(s, k, w + [Space] + rest)
    requires w != [] && NoWhitespace(w) && rest != [] && !IsWhitespace(rest[0])
    ensures NextWs(s, k) == k + |w| < |s| && SkipWs(s, k + |w|) == k + |w| + 1
    ensures Piece(s, k, k + |w|) == w && TailAt(s, k + |w| + 1, rest)
  {
    TailAtParts(s, k, w, rest);
    WordBeforeSpace(s, k, w, rest);
  }

  /** The three parts of `w + " " + rest` placed in `s` at `k`. */
  lemma TailAtParts(s: Str, k: nat, w: Str, rest: Str)
    requires TailAt(s, k, w + [Space] + rest)
    ensures k + |w| < |s| && s[k + |w|] == Space
    ensures forall i :: 0 <= i < |w| ==> s[k + i] == w[i]
    ensures TailAt(s, k + |w| + 1, rest)
  {
    var t := w + [Space] + rest;
    assert s[k + |w|] == t[|w|];
    forall i | 0 <= i < |w| ensures s[k + i] == w[i] {
      assert s[k + i] == t[i];
    }
    forall j | 0 <= j < |rest| ensures s[k + |w| + 1 + j] == rest[j] {
      assert s[k + (|w| + 1 + j)] == t[|w| + 1 + j];
    }
  }

  /** The piece scan over a word placed in `s` at `k` and followed by a single space. */
  lemma WordBeforeSpace(s: Str, k: nat, w: Str, rest: Str)
    requires k + |w| < |s| && s[k + |w|] == Space
    requires forall i :: 0 <= i < |w| ==> s[k + i] == w[i]
    requires TailAt(s, k + |w| + 1, rest)
    requires NoWhitespace(w) && rest != [] && !IsWhitespace(rest[0])
    ensures NextWs(s, k) == k + |w| && SkipWs(s, k + |w|) == k + |w| + 1
    ensures Piece(s, k, k + |w|) == w
  {
    forall j | k <= j < k + |w| ensures !IsWhitespace(s[j]) {
      assert s[k + (j - k)] == w[j - k];
    }
    NextWsUnique(s, k, k + |w|);
    assert s[k + |w| + 1 + 0] == rest[0];
    SkipWsUnique(s, k + |w|, k + |w| + 1);
  }

  /** Words joined by single spaces that fill `s` from `k` on split back
      into those words. */
  lemma {:induction false} SplitFromJoin(s: Str, k: nat, ps: seq<Str>)
    requires |ps| >= 1 && Words(ps) && TailAt(s, k, Join(ps, [Space]))
    ensures SplitFrom(s, k) == ps
    decreases |ps|
  {
    var w := ps[0];
    if |ps| == 1 {
      WordAt(s, k, w);
      SplitFromEnd(s, k, |s|);
    } else {
      var rest := Join(ps[1..], [Space]);
      JoinEnds(ps[1..]);
      WordThenSpace(s, k, w, rest);
      SplitFromJoin(s, k + |w| + 1, ps[1..]);
      SplitFromStep(s, k, k + |w|, k + |w| + 1);
      assert ps == [w] + ps[1..];
    }
  }

  /** Splitting words joined by single spaces gives the words back:
      `ws.join(" ").split(/\s+/)` equals `ws`. */
  lemma SplitJoin(ps: seq<Str>)
    requires |ps| >= 1 && Words(ps)
    ensures SplitWs(Join(ps, [Space])) == ps
  {
    var s := Join(ps, [Space]);
    assert TailAt(s, 0, s);
    SplitFromJoin(s, 0, ps);
  }

  /** A string that neither starts nor ends with whitespace splits into words. */
  lemma {:induction false} SplitFromWords(s: Str, k: nat)
    requires k < |s| && !IsWhitespace(s[k]) && !IsWhitespace(s[|s| - 1])
    ensures Words(SplitFrom(s, k))
    decreases |s| - k
  {
    SplitFromPieces(s, k);
    var e := NextWs(s, k);
    if e < |s| {
      var k' := SkipWs(s, e);
      SkipWsRun(s, e);
      SplitFromWords(s, k');
      var r, rest := SplitFrom(s, k), SplitFrom(s, k');
      assert r == [Piece(s, k, e)] + rest;
      forall i | 0 <= i < |r| ensures r[i] != [] {
        if i > 0 { assert r[i] == rest[i - 1]; }
      }
    }
  }

  lemma SplitWsWords(s: Str)
    requires s != [] && !IsWhitespace(s[0]) && !IsWhitespace(s[|s| - 1])
    ensures Words(SplitWs(s))
  {
    SplitFromWords(s, 0);
  }

  // ---------------------------------------------------------------------
  // Case, padding and numbers

  /** `toUpperCase` on one unit, for the ASCII letters only. */
  function UpperUnit(u: CodeUnit): (r: CodeUnit)
    ensures 'a' as int <= u <= 'z' as int ==> r == u - 32
    ensures !('a' as int <= u <= 'z' as int) ==> r == u
  {
    if 'a' as int <= u <= 'z' as int then u - 32 else u
  }

  /** `s.toUpperCase()`, for the ASCII letters only. */
  function ToUpper(s: Str): (r: Str)
    ensures |r| == |s|
    ensures forall i :: 0 <= i < |s| ==> r[i] == UpperUnit(s[i])
  {
    seq(|s|, i requires 0 <= i < |s| => UpperUnit(s[i]))
  }

  function Spaces(n: nat): (r: Str)
    ensures |r| == n
    ensures forall i :: 0 <= i < n ==> r[i] == Space
  {
    seq(n, _ => Space)
  }

  function Max(a: int, b: int): int { if a < b then b else a }

  /** `s.padEnd(n)`: `s` followed by as many spaces as bring it to length `n`. */
  function PadEnd(s: Str, n: int): (r: Str)
    ensures |r| == Max(|s|, n)
    ensures r[..|s|] == s
    ensures forall i :: |s| <= i < |r| ==> r[i] == Space
    ensures n <= |s| ==> r == s
  {
    if n <= |s| then s else s + Spaces(n - |s|)
  }

  /** `s.slice(0, n)` for `n >= 0`. */
  function Prefix(s: Str, n: nat): (r: Str)
    ensures |r| == if n < |s| then n else |s|
    ensures r == s[..|r|]
  {
    if n < |s| then s[..n] else s
  }

  function Digit(d: int): (r: CodeUnit)
    requires 0 <= d < 10
    ensures '0' as int <= r <= '9' as int
  {
    '0' as int + d
  }

  predicate IsDigit(u: CodeUnit) { '0' as int <= u <= '9' as int }

  /** Decimal digits of a natural number, without leading zeros. */
  function NatToStr(n: nat): (r: Str)
    ensures |r| >= 1
    ensures forall i :: 0 <= i < |r| ==> IsDigit(r[i])
    ensures |r| > 1 ==> r[0] != '0' as int
  {
    if n < 10 then [Digit(n)] else NatToStr(n / 10) + [Digit(n % 10)]
  }

  /** `String(n)` for an integer `n`. */
  function IntToStr(n: int): (r: Str)
    ensures n >= 0 ==> r == NatToStr(n)
    ensures n < 0 ==> r == [Minus] + NatToStr(-n)
  {
    if n < 0 then [Minus] + NatToStr(-n) else NatToStr(n)
  }

  /** The number a string of decimal digits denotes: the inverse of `NatToStr`. */
  function DigitsValue(s: Str): int {
    if s == [] then 0 else DigitsValue(s[..|s| - 1]) * 10 + (s[|s| - 1] - '0' as int)
  }

  lemma {:induction false} NatToStrRoundTrip(n: nat)
    ensures DigitsValue(NatToStr(n)) == n
  {
    var r := NatToStr(n);
    if n >= 10 {
      NatToStrRoundTrip(n / 10);
      assert r[..|r| - 1] == NatToStr(n / 10);
    }
  }
}
