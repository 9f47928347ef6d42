/**
 * The cleaning tail of the per-source loader: once a source's rows have been
 * parsed into (rank, domain) pairs, where either may be NA, the loader keeps
 * the first `limit` rows, trims and lowercases each domain, drops rows with
 * an NA, an empty domain or a rank that is not positive, and sorts the
 * survivors by ascending rank.
 */
module Cleaning {
  import opened Wrappers
  import Sorting

  /** A parsed row; `None` stands for pandas' NA. */
  datatype Row = Row(rank: Option<int>, domain: Option<string>)

  /** A row that survived cleaning. */
  datatype Record = Record(rank: int, domain: string)

  /** The characters Python's `str.strip()` removes (those for which `str.isspace()` holds). */
  predicate IsSpace(c: char) {
    || c == ' ' || '\t' <= c <= '\r' || '\U{1C}' <= c <= '\U{1F}'
    || c == '\U{85}' || c == '\U{A0}' || c == '\U{1680}' || '\U{2000}' <= c <= '\U{200A}'
    || c == '\U{2028}' || c == '\U{2029}' || c == '\U{202F}' || c == '\U{205F}' || c == '\U{3000}'
  }

  predicate IsUpper(c: char) { 'A' <= c <= 'Z' }

  /** The first index at or after `i` that holds no white space (`|s|` when there is none). */
  function SkipSpaces(s: string, i: nat): (j: nat)
    requires i <= |s|
    ensures i <= j <= |s|
    ensures forall k :: i <= k < j ==> IsSpace(s[k])
    ensures j == |s| || !IsSpace(s[j])
    decreases |s| - i
  {
    if i == |s| || !IsSpace(s[i]) then i else SkipSpaces(s, i + 1)
  }

  /** The end of `s[lo..hi]` once trailing white space is cut off. */
  function TrimmedEnd(s: string, lo: nat, hi: nat): (e: nat)
    requires lo <= hi <= |s|
    ensures lo <= e <= hi
    ensures forall k :: e <= k < hi ==> IsSpace(s[k])
    ensures e == lo || !IsSpace(s[e - 1])
  {
    if hi == lo || !IsSpace(s[hi - 1]) then hi else TrimmedEnd(s, lo, hi - 1)
  }

  /** How many white-space characters `str.strip()` cuts from the front. */
  function LeadingSpaces(s: string): (i: nat)
    ensures i <= |s|
  {
    SkipSpaces(s, 0)
  }

  /** Where the piece `str.strip()` keeps ends. */
  function StrippedEnd(s: string): (e: nat)
    ensures LeadingSpaces(s) <= e <= |s|
  {
    TrimmedEnd(s, LeadingSpaces(s), |s|)
  }

  /** Python's `str.strip()`: no white space is left at either end. */
  function Strip(s: string): (r: string)
    ensures r == [] || (!IsSpace(r[0]) && !IsSpace(r[|r| - 1]))
  {
    var i := LeadingSpaces(s);
    var e := StrippedEnd(s);
    assert i < e ==> s[i..e][0] == s[i] && s[i..e][e - i - 1] == s[e - 1];
    s[i..e]
  }

  /**
   * `str.strip()` keeps one contiguous piece of its input and cuts off only
   * white space before and after it.
   */
  lemma StripCutsOnlySpace(s: string)
    ensures LeadingSpaces(s) + |Strip(s)| <= |s|
    ensures Strip(s) == s[LeadingSpaces(s)..LeadingSpaces(s) + |Strip(s)|]
    ensures forall k :: 0 <= k < LeadingSpaces(s) ==> IsSpace(s[k])
    ensures forall k :: LeadingSpaces(s) + |Strip(s)| <= k < |s| ==> IsSpace(s[k])
  {
    assert |Strip(s)| == StrippedEnd(s) - LeadingSpaces(s);
  }

  /** `c` with an ASCII capital turned into its small letter; every other character unchanged. */
  function LowerChar(c: char): (d: char)
    ensures !IsUpper(d)
    ensures IsSpace(d) == IsSpace(c)
    ensures IsUpper(c) ==> d as int == c as int + 32 && 'a' <= d <= 'z'
    ensures !IsUpper(c) ==> d == c
  {
    if IsUpper(c) then (c as int + 32) as char else c
  }

  /** Python's `str.lower()` on the ASCII letters. */
  function Lower(s: string): (r: string)
    ensures |r| == |s|
    ensures forall i :: 0 <= i < |r| ==> !IsUpper(r[i]) && IsSpace(r[i]) == IsSpace(s[i])
    ensures forall i :: 0 <= i < |s| ==> if IsUpper(s[i]) then r[i] as int == s[i] as int + 32 else r[i] == s[i]
  {
    seq(|s|, i requires 0 <= i < |s| => LowerChar(s[i]))
  }

  /** A domain as cleaning leaves it: non-empty, trimmed and lower case. */
  ghost predicate IsNormalDomain(d: string) {
    && d != []
    && !IsSpace(d[0]) && !IsSpace(d[|d| - 1])
    && forall i :: 0 <= i < |d| ==> !IsUpper(d[i])
  }

  /** Trims and lowercases the domain column; an NA domain stays NA. */
  function Normalize(row: Row): (n: Row)
    ensures n.rank == row.rank && n.domain.Some? == row.domain.Some?
    ensures n.domain.Some? && n.domain.value != [] ==> IsNormalDomain(n.domain.value)
    ensures row.domain.Some? ==> n.domain == Some(Lower(Strip(row.domain.value)))
  {
    match row.domain
    case None => row
    case Some(d) => Row(row.rank, Some(Lower(Strip(d))))
  }

  /** A normalized row survives `dropna`, the empty-domain filter and the positive-rank filter. */
  predicate Survives(row: Row) {
    row.rank.Some? && row.domain.Some? && row.domain.value != "" && row.rank.value > 0
  }

  /** `row`, once normalized, survives and becomes `rec`. */
  predicate CleansTo(row: Row, rec: Record) {
    var n := Normalize(row);
    Survives(n) && rec == Record(n.rank.value, n.domain.value)
  }

  /** Normalizes every row and keeps the survivors, in their input order. */
  function CleanRows(rows: seq<Row>): (r: seq<Record>)
    ensures |r| <= |rows|
    ensures forall i :: 0 <= i < |r| ==> r[i].rank > 0 && IsNormalDomain(r[i].domain)
  {
    if rows == [] then []
    else
      var n := Normalize(rows[0]);
      (if Survives(n) then [Record(n.rank.value, n.domain.value)] else []) + CleanRows(rows[1..])
  }

  function RankKey(r: Record): real { r.rank as real }

  /** `head(limit)` when the source has a limit, every row otherwise. */
  function Taken(rows: seq<Row>, limit: Option<int>): (r: seq<Row>)
    ensures r <= rows
    ensures limit.None? ==> r == rows
    ensures limit.Some? && limit.value >= 0 ==> |r| == Sorting.Min(limit.value, |rows|)
  {
    if limit.Some? then Sorting.Head(rows, limit.value) else rows
  }

  /**
   * The cleaning pipeline: limit, normalize, drop, sort by rank.  Every kept
   * record has a positive rank and a normal domain, the records are in
   * ascending rank order, and they are exactly the surviving rows of the
   * limited prefix, rearranged.
   */
  function Clean(rows: seq<Row>, limit: Option<int>): (r: seq<Record>)
    ensures forall i :: 0 <= i < |r| ==> r[i].rank > 0 && IsNormalDomain(r[i].domain)
    ensures forall i, j :: 0 <= i < j < |r| ==> r[i].rank <= r[j].rank
    ensures multiset(r) == multiset(CleanRows(Taken(rows, limit)))
  {
    var kept := CleanRows(Taken(rows, limit));
    var r := Sorting.SortByKey(kept, RankKey);
    forall i | 0 <= i < |r| ensures r[i].rank > 0 && IsNormalDomain(r[i].domain) {
      assert r[i] in multiset(kept);
    }
    forall i, j | 0 <= i < j < |r| ensures r[i].rank <= r[j].rank {
      assert RankKey(r[i]) <= RankKey(r[j]);
    }
    r
  }

  /** A record comes out of `CleanRows` exactly when some input row cleans to it. */
  lemma {:induction false} CleanRowsMembers(rows: seq<Row>, rec: Record)
    ensures rec in CleanRows(rows) <==> exists k :: 0 <= k < |rows| && CleansTo(rows[k], rec)
  {
    if rows != [] {
      CleanRowsMembers(rows[1..], rec);
      var n := Normalize(rows[0]);
      var head := if Survives(n) then [Record(n.rank.value, n.domain.value)] else [];
      assert CleanRows(rows) == head + CleanRows(rows[1..]);
      if rec in CleanRows(rows[1..]) {
        var k :| 0 <= k < |rows[1..]| && CleansTo(rows[1..][k], rec);
        assert rows[k + 1] == rows[1..][k];
      }
      if exists k :: 0 <= k < |rows| && CleansTo(rows[k], rec) {
        var k :| 0 <= k < |rows| && CleansTo(rows[k], rec);
        if k > 0 {
          assert rows[1..][k - 1] == rows[k];
        }
      }
    }
  }

  /** The indices of the elements of `s` that satisfy `p`. */
  ghost function Indices<T>(s: seq<T>, p: T -> bool): set<nat> {
    set k: nat | k < |s| && p(s[k])
  }

  /** Every element of `s` moved up by one. */
  ghost function Shift(s: set<nat>): set<nat> {
    set k | k in s :: k + 1
  }

  /** Moving every index up by one keeps the number of indices. */
  lemma {:induction false} ShiftSize(s: set<nat>)
    ensures |Shift(s)| == |s|
    decreases |s|
  {
    if s != {} {
      var x :| x in s;
      ShiftSize(s - {x});
      forall k | k in Shift(s) ensures k in Shift(s - {x}) + {x + 1} {
        var j :| j in s && k == j + 1;
        if j != x {
          assert j in s - {x};
        }
      }
      assert Shift(s) == Shift(s - {x}) + {x + 1};
      assert x + 1 !in Shift(s - {x});
    }
  }

  /** The indices of `s` satisfying `p`: maybe 0, then those of `s[1..]` moved up by one. */
  lemma IndicesFront<T>(s: seq<T>, p: T -> bool)
    requires s != []
    ensures Indices(s, p) == (if p(s[0]) then {0} else {}) + Shift(Indices(s[1..], p))
  {
    var all, tail := Indices(s, p), Indices(s[1..], p);
    forall k: nat | k in all && k > 0 ensures k in Shift(tail) {
      assert s[1..][k - 1] == s[k];
      assert k - 1 in tail;
    }
  }

  /** The rows that clean to `rec`. */
  function CleansToRec(rec: Record): Row -> bool {
    row => CleansTo(row, rec)
  }

  /** The indices of the rows that clean to `rec`. */
  ghost function CleanedIndices(rows: seq<Row>, rec: Record): set<nat> {
    Indices(rows, CleansToRec(rec))
  }

  /**
   * Cleaning keeps every surviving row, duplicates included: `rec` occurs in
   * the result once for each input row that cleans to it.
   */
  lemma {:induction false} CleanRowsCounts(rows: seq<Row>, rec: Record)
    ensures multiset(CleanRows(rows))[rec] == |CleanedIndices(rows, rec)|
  {
    if rows == [] {
      assert CleanedIndices(rows, rec) == {};
    } else {
      CleanRowsCounts(rows[1..], rec);
      IndicesFront(rows, CleansToRec(rec));
      ShiftSize(CleanedIndices(rows[1..], rec));
      assert 0 !in Shift(CleanedIndices(rows[1..], rec));
    }
  }

  /** The cleaned source holds `rec` once for each row of the limited prefix that cleans to it. */
  lemma CleanCounts(rows: seq<Row>, limit: Option<int>, rec: Record)
    ensures multiset(Clean(rows, limit))[rec] == |CleanedIndices(Taken(rows, limit), rec)|
  {
    CleanRowsCounts(Taken(rows, limit), rec);
  }

  /** Sorting neither adds nor loses a record. */
  lemma CleanKeepsMembers(rows: seq<Row>, limit: Option<int>, rec: Record)
    ensures rec in Clean(rows, limit) <==> rec in CleanRows(Taken(rows, limit))
  {
    assert rec in Clean(rows, limit) <==> rec in multiset(Clean(rows, limit));
  }

  /**
   * The limit is applied before filtering: a cleaned record comes from one of
   * the first `limit` input rows, and every surviving row among them is kept.
   */
  lemma CleanTakesFromLimitedPrefix(rows: seq<Row>, limit: int, rec: Record)
    requires limit >= 0
    ensures rec in Clean(rows, Some(limit)) <==>
      exists k :: 0 <= k < limit && k < |rows| && CleansTo(rows[k], rec)
  {
    var taken := Taken(rows, Some(limit));
    CleanKeepsMembers(rows, Some(limit), rec);
    CleanRowsMembers(taken, rec);
    assert forall k :: 0 <= k < |taken| ==> taken[k] == rows[k];
  }
}
