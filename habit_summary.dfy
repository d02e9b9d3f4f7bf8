/** The 7-day habit summary with streaks and "at risk" nudges built for one user from
    that user's recent `habit_logs` rows (lib/habitSummary.js). Calendar days are day
    numbers, so the day before `d` is `d - 1`; today and the first day of the 7-day
    window are inputs, as the query's clock is not part of this model. */
module HabitSummary {
  import opened Text
  import opened JsValue

  /** Nudges are capped at this many entries. */
  const MaxNudges := 3
  /** A streak as of yesterday of at least this many days is at risk. */
  const AtRiskStreak := 2

  // ---------------------------------------------------------------- days and streaks

  function PreviousDay(d: int): int {
    d - 1
  }

  /** The days `d - count + 1 .. d`. */
  function Run(d: int, count: nat): set<int> {
    if count == 0 then {} else Run(d, count - 1) + {d - count + 1}
  }

  /** A run holds exactly the `count` days ending at `d`. */
  lemma {:induction false} RunSpec(d: int, count: nat)
    ensures forall j :: j in Run(d, count) <==> d - count < j <= d
    ensures |Run(d, count)| == count
    decreases count
  {
    if count > 0 {
      RunSpec(d, count - 1);
      assert d - count + 1 !in Run(d, count - 1);
    }
  }

  /** The number of consecutive days in `dates` counted backwards from `d`. */
  function Streak(dates: set<int>, d: int): nat
    decreases |dates|
  {
    if d in dates then 1 + Streak(dates - {d}, PreviousDay(d)) else 0
  }

  /** A run is its latest day plus the run ending the day before. */
  lemma {:induction false} RunStep(d: int, k: nat)
    ensures Run(d, k + 1) == Run(d - 1, k) + {d}
    decreases k
  {
    if k > 0 {
      RunStep(d, k - 1);
    }
  }

  lemma SubsetSize(a: set<int>, b: set<int>)
    requires a <= b
    ensures |a| <= |b|
  {
    assert b == a + (b - a);
  }

  /** The `k` days ending at `d` are all in the set and the day before them is not (so
      the streak is 0 when `d` is absent); a run inside a set is never longer than the
      set. */
  lemma {:induction false} StreakSpec(dates: set<int>, d: int)
    ensures Run(d, Streak(dates, d)) <= dates
    ensures d - Streak(dates, d) !in dates
    ensures Streak(dates, d) <= |dates|
    decreases |dates|
  {
    if d in dates {
      var k := Streak(dates - {d}, d - 1);
      StreakSpec(dates - {d}, d - 1);
      RunStep(d, k);
    }
  }

  /** The two clauses that describe a streak pin it down. */
  lemma {:induction false} StreakUnique(dates: set<int>, d: int, k: nat)
    requires Run(d, k) <= dates
    requires d - k !in dates
    ensures k == Streak(dates, d)
    decreases k
  {
    if k > 0 {
      RunSpec(d, k);
      RunSpec(d - 1, k - 1);
      assert d in Run(d, k);
      forall j | j in Run(d - 1, k - 1) ensures j in dates - {d} {
        assert j in Run(d, k);
      }
      StreakUnique(dates - {d}, d - 1, k - 1);
    }
  }

  /** `countConsecutiveDaysFrom`: walks back one day at a time while the day is logged. */
  method CountConsecutiveDaysFrom(dates: set<int>, from: int) returns (count: nat)
    ensures count == Streak(dates, from)
  {
    count := 0;
    var d := from;
    while d in dates
      invariant d == from - count
      invariant Run(from, count) <= dates
      decreases |dates| - count
    {
      assert Run(from, count + 1) == Run(from, count) + {d};
      SubsetSize(Run(from, count + 1), dates);
      RunSpec(from, count + 1);
      count := count + 1;
      d := PreviousDay(d);
    }
    StreakUnique(dates, from, count);
  }

  // ---------------------------------------------------------------- most frequent

  /** How many times `s[j]` occurs in `s[..j + 1]`: the running count of that element
      at the moment it is scanned. */
  function Reach(s: seq<string>, j: nat): nat
    requires j < |s|
  {
    multiset(s[..j + 1])[s[j]]
  }

  /** Among the first `n` elements, `w` is where the highest running count is first
      reached. */
  predicate FirstModeUpTo(s: seq<string>, n: nat, w: nat) {
    && w < n <= |s|
    && (forall j :: 0 <= j < n ==> Reach(s, j) <= Reach(s, w))
    && (forall j :: 0 <= j < w ==> Reach(s, j) < Reach(s, w))
  }

  lemma ReachOfPrefix(s: seq<string>, n: nat, j: nat)
    requires j < n <= |s|
    ensures Reach(s[..n], j) == Reach(s, j)
  {
    assert s[..n][..j + 1] == s[..j + 1];
  }

  /** The position of the element a left-to-right frequency scan ends on. */
  function FirstModeIndex(s: seq<string>): (w: nat)
    requires s != []
    ensures FirstModeUpTo(s, |s|, w)
    decreases |s|
  {
    if |s| == 1 then 0
    else
      var v := FirstModeIndex(s[..|s| - 1]);
      FirstModeOfPrefix(s, v);
      ScanStep(s, |s| - 1, v, Reach(s, v));
      if Reach(s, |s| - 1) > Reach(s, v) then |s| - 1 else v
  }

  lemma FirstModeOfPrefix(s: seq<string>, v: nat)
    requires |s| > 1 && FirstModeUpTo(s[..|s| - 1], |s| - 1, v)
    ensures FirstModeUpTo(s, |s| - 1, v)
  {
    forall j | 0 <= j < |s| - 1 ensures Reach(s[..|s| - 1], j) == Reach(s, j) {
      ReachOfPrefix(s, |s| - 1, j);
    }
  }

  lemma FirstModeUnique(s: seq<string>, w1: nat, w2: nat)
    requires FirstModeUpTo(s, |s|, w1) && FirstModeUpTo(s, |s|, w2)
    ensures w1 == w2
  {
    var r1, r2 := Reach(s, w1), Reach(s, w2);
  }

  /** `mostFrequent`: null for no elements, otherwise the element whose count first
      reached the highest count (its running count only replaces the winner when it is
      strictly greater). */
  function MostFrequent(s: seq<string>): Option<string> {
    if s == [] then None else Some(s[FirstModeIndex(s)])
  }

  /** Some element occurs at least `multiset(s)[y]` times by the time it is scanned. */
  lemma {:induction false} ReachCovers(s: seq<string>, y: string) returns (j: nat)
    requires y in s
    ensures j < |s| && s[j] == y && Reach(s, j) == multiset(s)[y]
    decreases |s|
  {
    var p := s[..|s| - 1];
    assert s == p + [s[|s| - 1]];
    if s[|s| - 1] == y {
      j := |s| - 1;
      assert s[..j + 1] == s;
    } else {
      assert y in p;
      j := ReachCovers(p, y);
      ReachOfPrefix(s, |p|, j);
    }
  }

  /** The element `mostFrequent` picks occurs at least as often as every other, and it
      is the one whose count reached that maximum first. */
  lemma MostFrequentIsMode(s: seq<string>)
    ensures MostFrequent(s).None? <==> s == []
    ensures MostFrequent(s).Some? ==>
      var x := MostFrequent(s).value;
      && x in s
      && (forall y :: multiset(s)[y] <= multiset(s)[x])
      && (forall w: nat :: FirstModeUpTo(s, |s|, w) ==> s[w] == x)
  {
    if s != [] {
      var w := FirstModeIndex(s);
      var x := s[w];
      assert multiset(s[..w + 1]) <= multiset(s) by {
        assert s == s[..w + 1] + s[w + 1..];
      }
      var jx := ReachCovers(s, x);
      forall y ensures multiset(s)[y] <= multiset(s)[x] {
        if y in s {
          var j := ReachCovers(s, y);
        }
      }
      forall v: nat | FirstModeUpTo(s, |s|, v) ensures s[v] == x {
        FirstModeUnique(s, v, w);
      }
    }
  }

  /** One turn of the scan: the winner moves to position `i` exactly when the running
      count there beats the best count so far. */
  lemma ScanStep(s: seq<string>, i: nat, w: nat, max: nat)
    requires i < |s|
    requires i == 0 ==> max == 0
    requires i > 0 ==> FirstModeUpTo(s, i, w) && max == Reach(s, w)
    ensures Reach(s, i) > max ==> FirstModeUpTo(s, i + 1, i)
    ensures Reach(s, i) <= max ==> FirstModeUpTo(s, i + 1, w)
  {
    assert s[i] in multiset(s[..i + 1]) by {
      assert s[..i + 1][i] == s[i];
    }
  }

  /** The running count of `s[i]` is one more than its count in `s[..i]`. */
  lemma ReachStep(s: seq<string>, i: nat)
    requires i < |s|
    ensures Reach(s, i) == multiset(s[..i])[s[i]] + 1
    ensures forall y :: y != s[i] ==> multiset(s[..i + 1])[y] == multiset(s[..i])[y]
  {
    assert s[..i + 1] == s[..i] + [s[i]];
  }

  /** The counts Map of the scan after the elements of `t`. */
  function CountsOf(t: seq<string>): map<string, nat>
    decreases |t|
  {
    if t == [] then map[]
    else
      var m := CountsOf(t[..|t| - 1]);
      var x := t[|t| - 1];
      m[x := (if x in m then m[x] else 0) + 1]
  }

  /** The counts Map holds the number of occurrences of every element seen. */
  lemma {:induction false} CountsOfSpec(t: seq<string>)
    ensures forall x :: x in CountsOf(t) ==> CountsOf(t)[x] == multiset(t)[x]
    ensures forall x :: x !in CountsOf(t) ==> multiset(t)[x] == 0
    decreases |t|
  {
    if t != [] {
      var p := t[..|t| - 1];
      assert t == p + [t[|t| - 1]];
      CountsOfSpec(p);
    }
  }

  /** `mostFrequent` as written: a scan keeping a map of counts, the best count so far
      and its element. */
  method MostFrequentScan(s: seq<string>) returns (result: Option<string>)
    ensures result == MostFrequent(s)
  {
    if |s| == 0 {
      return None;
    }
    var counts: map<string, nat> := map[];
    var max: nat := 0;
    result := None;
    ghost var w: nat := 0;
    for i := 0 to |s|
      invariant counts == CountsOf(s[..i])
      invariant i == 0 ==> max == 0
      invariant i > 0 ==> FirstModeUpTo(s, i, w) && result == Some(s[w]) && max == Reach(s, w)
    {
      var x := s[i];
      assert s[..i + 1][..i] == s[..i];
      CountsOfSpec(s[..i]);
      ReachStep(s, i);
      ScanStep(s, i, w, max);
      var c := (if x in counts then counts[x] else 0) + 1;
      assert c == Reach(s, i);
      assert counts[x := c] == CountsOf(s[..i + 1]);
      counts := counts[x := c];
      if c > max {
        max := c;
        result := Some(x);
        w := i;
      }
    }
    assert s[..|s|] == s;
    FirstModeUnique(s, w, FirstModeIndex(s));
  }

  // ---------------------------------------------------------------- averages

  function Sum(qs: seq<int>): int {
    if qs == [] then 0 else Sum(qs[..|qs| - 1]) + qs[|qs| - 1]
  }

  /** `Math.round(sum / n)` for integers: the nearest integer to the mean, halves
      rounded up. */
  function RoundedMean(qs: seq<int>): (r: int)
    requires qs != []
    ensures 2 * |qs| * r <= 2 * Sum(qs) + |qs| < 2 * |qs| * (r + 1)
  {
    var n := |qs|;
    var num := 2 * Sum(qs) + n;
    var q := num / (2 * n);
    assert num == (2 * n) * q + num % (2 * n);
    q
  }

  /** `avg_units`: null when no quantity was logged in the window, otherwise the mean
      rounded to the nearest integer, halves up. */
  function Average(qs: seq<int>): (r: Option<int>)
    ensures r.None? <==> qs == []
    ensures r.Some? ==> 2 * |qs| * r.value <= 2 * Sum(qs) + |qs| < 2 * |qs| * (r.value + 1)
  {
    if qs == [] then None else Some(RoundedMean(qs))
  }

  // ---------------------------------------------------------------- display

  /** The replacement `(c) => c.toUpperCase()` of a character that is not an upper-case
      letter, applied where `\b\w` matches (`start`: the character begins a word). */
  function TitleChar(c: char, start: bool): (r: char)
    requires !('A' <= c <= 'Z')
    ensures 'A' <= r <= 'Z' <==> 'a' <= c <= 'z' && start
    ensures !('a' <= c <= 'z') ==> r == c
    ensures LowerChar(r) == c
  {
    if IsWordChar(c) && start then UpperChar(c) else c
  }

  /** `r` is the lower-case string `t` title-cased: the same length, a letter that
      starts a word (`\b\w`) upper-cased, every other character as in `t`. */
  predicate TitleCased(r: string, t: string) {
    |r| == |t| && forall i :: 0 <= i < |t| ==> TitleCasedAt(r, t, i)
  }

  /** Position `i` of `r` is position `i` of `t`, title-cased. */
  predicate TitleCasedAt(r: string, t: string, i: nat)
    requires i < |r| == |t|
  {
    && ('A' <= r[i] <= 'Z' <==> 'a' <= t[i] <= 'z' && (i == 0 || !IsWordChar(t[i - 1])))
    && (!('a' <= t[i] <= 'z') ==> r[i] == t[i])
    && LowerChar(r[i]) == t[i]
  }

  /** `.replace(/\b\w/g, (c) => c.toUpperCase())` on a lower-case string. */
  function Capitalize(t: string): (r: string)
    requires IsLower(t)
    ensures |r| == |t|
  {
    seq(|t|, i requires 0 <= i < |t| => TitleChar(t[i], i == 0 || !IsWordChar(t[i - 1])))
  }

  /** A letter of a lower-case string that starts a word becomes upper case, and
      nothing else changes but for case. */
  lemma CapitalizeSpec(t: string)
    requires IsLower(t)
    ensures TitleCased(Capitalize(t), t)
  {
    var r := Capitalize(t);
    forall i | 0 <= i < |t| ensures TitleCasedAt(r, t, i) {
      var start := i == 0 || !IsWordChar(t[i - 1]);
      assert !('A' <= t[i] <= 'Z');
      assert r[i] == TitleChar(t[i], start);
    }
  }

  /** `toTitleCase`: trimmed, lower-cased, and every word character that does not follow
      another word character (`\b\w`) upper-cased. */
  function TitleCase(s: string): (r: string)
    ensures TitleCased(r, Lower(Trim(s)))
  {
    LowerIsLower(Trim(s));
    CapitalizeSpec(Lower(Trim(s)));
    Capitalize(Lower(Trim(s)))
  }

  lemma CapitalizeExample()
    ensures Capitalize("surya namaskar") == "Surya Namaskar"
  {
    var s := "surya namaskar";
    var r := Capitalize(s);
    assert r[0] == 'S';
    assert r[1] == 'u';
    assert r[2] == 'r';
    assert r[3] == 'y';
    assert r[4] == 'a';
    assert r[5] == ' ';
    assert r[7] == 'a';
    assert r[8] == 'm';
    assert r[9] == 'a';
    assert r[10] == 's';
    assert r[11] == 'k';
    assert r[12] == 'a';
    assert r[13] == 'r';
    assert r[6] == 'N' by {
      assert s[5] == ' ' && s[6] == 'n';
      assert r[6] == TitleChar('n', true);
    }
    forall i | 0 <= i < |r| ensures r[i] == "Surya Namaskar"[i] {
      assert i == 0 || i == 1 || i == 2 || i == 3 || i == 4 || i == 5 || i == 6 || i == 7
          || i == 8 || i == 9 || i == 10 || i == 11 || i == 12 || i == 13;
    }
  }

  /** "surya namaskar" is displayed as "Surya Namaskar". */
  lemma TitleCaseExample()
    ensures TitleCase("surya namaskar") == "Surya Namaskar"
  {
    var s := "surya namaskar";
    assert Trim(s) == s by { TrimOfUnpadded(s); }
    assert Lower(s) == s by { LowerOfLower(s); }
    CapitalizeExample();
  }

  /** The display name lower-cases back to the trimmed, lower-cased name, so a summary
      key can always be recovered from its display form. */
  lemma TitleCaseLowersBack(s: string)
    ensures Lower(TitleCase(s)) == Lower(Trim(s))
  {
    var t := Lower(Trim(s));
    var r := TitleCase(s);
    assert |Lower(r)| == |t|;
    forall i | 0 <= i < |t| ensures Lower(r)[i] == t[i] {
      assert TitleCasedAt(r, t, i);
    }
  }

  /** UNIT_DISPLAY_MAP. */
  const UnitDisplay: map<string, string> := map[
    "minutes" := "min", "minute" := "min", "hours" := "hr", "hour" := "hr",
    "glasses" := "glasses", "glass" := "glass", "cups" := "cups", "cup" := "cup",
    "reps" := "reps", "rounds" := "rounds", "sets" := "sets", "ml" := "ml",
    "liters" := "L", "litres" := "L", "km" := "km", "miles" := "mi", "steps" := "steps"]

  /** `formatUnitForDisplay`: null for a null or empty unit; otherwise the trimmed,
      lower-cased unit looked up in the table, or that key itself when it has no entry. */
  function FormatUnit(unit: Option<string>): (r: Option<string>)
    ensures r.None? <==> unit.None? || unit.value == ""
    ensures unit.Some? && unit.value != "" && Lower(Trim(unit.value)) in UnitDisplay ==>
      r == Some(UnitDisplay[Lower(Trim(unit.value))])
    ensures unit.Some? && unit.value != "" && Lower(Trim(unit.value)) !in UnitDisplay ==>
      r == Some(Lower(Trim(unit.value)))
  {
    if unit.None? || unit.value == "" then None
    else
      var key := Lower(Trim(unit.value));
      Some(if key in UnitDisplay then UnitDisplay[key] else key)
  }

  /** "Minutes" is shown as "min". */
  lemma FormatUnitAbbreviates()
    ensures FormatUnit(Some("Minutes")) == Some("min")
  {
    assert Trim("Minutes") == "Minutes" by { TrimOfUnpadded("Minutes"); }
    assert Lower("Minutes") == "minutes";
  }

  /** "laps", which has no entry in the table, is shown as itself. */
  lemma FormatUnitFallsBack()
    ensures FormatUnit(Some("laps")) == Some("laps")
  {
    assert Trim("laps") == "laps" by { TrimOfUnpadded("laps"); }
    assert Lower("laps") == "laps" by { LowerOfLower("laps"); }
  }

  /** Case and surrounding white space of a unit never change how it is displayed. */
  lemma FormatUnitNormalises(u: string)
    requires !IsBlank(u)
    ensures FormatUnit(Some(u)) == FormatUnit(Some(Lower(Trim(u))))
  {
    NormalisedKeyIsFixed(u);
  }

  // ---------------------------------------------------------------- rows and groups

  /** A `habit_logs` row as the summary query selects it (`habit_name, quantity, unit,
      date`); a null column is None. */
  datatype Row = Row(habitName: Option<string>, quantity: Option<int>, unit: Option<string>, date: int)

  /** The per-habit record the grouping loop accumulates. */
  datatype Group = Group(name: string, count: nat, quantities: seq<int>, units: seq<string>, dates: set<int>)

  /** The JavaScript `Map` of groups: its entries, and its keys in the order they were
      first inserted (the order the Map is iterated in). */
  datatype GroupMap = GroupMap(byName: map<string, Group>, order: seq<string>)

  ghost predicate WellFormed(gm: GroupMap) {
    && (forall k :: k in gm.byName <==> k in gm.order)
    && (forall i, j :: 0 <= i < j < |gm.order| ==> gm.order[i] != gm.order[j])
    && (forall k :: k in gm.byName ==> gm.byName[k].name == k)
  }

  /** The grouping key `(row.habit_name || "").trim().toLowerCase()`. */
  function Key(row: Row): string {
    Lower(Trim(row.habitName.GetOr("")))
  }

  /** The quantity a row adds to its group's list. */
  function QuantityOf(row: Row): seq<int> {
    if row.quantity.Some? then [row.quantity.value] else []
  }

  /** The unit a row adds to its group's list: its trimmed, lower-cased unit when that is
      not blank. */
  function UnitOf(row: Row): seq<string> {
    if row.unit.Some? && Trim(row.unit.value) != "" then [Lower(Trim(row.unit.value))] else []
  }

  /** The turn of the grouping loop for `row`, applied to the row's group: the row's
      day is added, and, when the row is inside the 7-day window, one more count and the
      row's quantity and unit. */
  function Extend(g: Group, row: Row, from: int): Group {
    var g1 := g.(dates := g.dates + {row.date});
    if row.date >= from
    then g1.(count := g1.count + 1, quantities := g1.quantities + QuantityOf(row), units := g1.units + UnitOf(row))
    else g1
  }

  /** One turn of the grouping loop: a row with a blank name is skipped; otherwise its
      group is created (and its key appended to the Map's order) if new, then extended. */
  function AddRow(gm: GroupMap, row: Row, from: int): GroupMap {
    var k := Key(row);
    if k == "" then gm
    else if k in gm.byName then GroupMap(gm.byName[k := Extend(gm.byName[k], row, from)], gm.order)
    else GroupMap(gm.byName[k := Extend(Group(k, 0, [], [], {}), row, from)], gm.order + [k])
  }

  /** The Map built by the grouping loop over `rows`. */
  function GroupRows(rows: seq<Row>, from: int): (gm: GroupMap)
    ensures WellFormed(gm)
  {
    if rows == [] then GroupMap(map[], [])
    else
      var gm := GroupRows(rows[..|rows| - 1], from);
      AddRowWellFormed(gm, rows[|rows| - 1], from);
      AddRow(gm, rows[|rows| - 1], from)
  }

  lemma AddRowWellFormed(gm: GroupMap, row: Row, from: int)
    requires WellFormed(gm)
    ensures WellFormed(AddRow(gm, row, from))
  {
    var k := Key(row);
    if k != "" && k !in gm.byName {
      assert k !in gm.order;
    }
  }

  // ---------------------------------------------------------------- per-habit reference

  /** The non-blank keys of `rows`. */
  function Keys(rows: seq<Row>): set<string> {
    if rows == [] then {}
    else Keys(rows[..|rows| - 1]) + (if Key(rows[|rows| - 1]) != "" then {Key(rows[|rows| - 1])} else {})
  }

  /** The rows of habit `k` dated on or after `from`, in row order. */
  function Window(rows: seq<Row>, k: string, from: int): seq<Row> {
    if rows == [] then []
    else
      var last := rows[|rows| - 1];
      Window(rows[..|rows| - 1], k, from) + (if Key(last) == k && last.date >= from then [last] else [])
  }

  function Quantities(rows: seq<Row>): seq<int> {
    if rows == [] then [] else Quantities(rows[..|rows| - 1]) + QuantityOf(rows[|rows| - 1])
  }

  function Units(rows: seq<Row>): seq<string> {
    if rows == [] then [] else Units(rows[..|rows| - 1]) + UnitOf(rows[|rows| - 1])
  }

  /** The days habit `k` was logged on. */
  function Days(rows: seq<Row>, k: string): set<int> {
    if rows == [] then {}
    else Days(rows[..|rows| - 1], k) + (if Key(rows[|rows| - 1]) == k then {rows[|rows| - 1].date} else {})
  }

  /** What the group of habit `k` should hold: its in-window row count, quantities and
      units, and every day it was logged on. */
  function GroupOf(rows: seq<Row>, k: string, from: int): Group {
    var w := Window(rows, k, from);
    Group(k, |w|, Quantities(w), Units(w), Days(rows, k))
  }

  lemma {:induction false} GroupOfAbsent(rows: seq<Row>, k: string, from: int)
    requires k !in Keys(rows) && k != ""
    ensures GroupOf(rows, k, from) == Group(k, 0, [], [], {})
    decreases |rows|
  {
    if rows != [] {
      GroupOfAbsent(rows[..|rows| - 1], k, from);
    }
  }

  lemma Snoc(p: seq<Row>, x: Row, k: string, from: int)
    ensures Window(p + [x], k, from) == Window(p, k, from) + (if Key(x) == k && x.date >= from then [x] else [])
    ensures Days(p + [x], k) == Days(p, k) + (if Key(x) == k then {x.date} else {})
    ensures Keys(p + [x]) == Keys(p) + (if Key(x) != "" then {Key(x)} else {})
  {
    assert (p + [x])[..|p|] == p;
  }

  /** Adding a row leaves the reference group of every other habit as it was. */
  lemma GroupOfOther(p: seq<Row>, x: Row, k: string, from: int)
    requires Key(x) != k
    ensures GroupOf(p + [x], k, from) == GroupOf(p, k, from)
  {
    Snoc(p, x, k, from);
    var w := Window(p + [x], k, from);
    assert w == Window(p, k, from);
    assert Days(p + [x], k) == Days(p, k);
  }

  /** Adding a row extends the reference group of its habit as the loop's turn does. */
  lemma GroupOfSame(p: seq<Row>, x: Row, from: int)
    ensures GroupOf(p + [x], Key(x), from) == Extend(GroupOf(p, Key(x), from), x, from)
  {
    var k := Key(x);
    Snoc(p, x, k, from);
    var w := Window(p, k, from);
    var d := Days(p, k);
    assert Days(p + [x], k) == d + {x.date};
    if x.date >= from {
      assert Window(p + [x], k, from) == w + [x];
      assert (w + [x])[..|w|] == w;
      assert Quantities(w + [x]) == Quantities(w) + QuantityOf(x);
      assert Units(w + [x]) == Units(w) + UnitOf(x);
    } else {
      assert Window(p + [x], k, from) == w;
    }
  }

  /** The grouping loop puts exactly the non-blank keys in the Map. */
  lemma {:induction false} GroupRowsKeys(rows: seq<Row>, from: int)
    ensures GroupRows(rows, from).byName.Keys == Keys(rows)
    decreases |rows|
  {
    if rows != [] {
      var p := rows[..|rows| - 1];
      var x := rows[|rows| - 1];
      assert rows == p + [x];
      GroupRowsKeys(p, from);
      Snoc(p, x, Key(x), from);
    }
  }

  lemma AddRowOther(gm: GroupMap, x: Row, from: int, j: string)
    requires j != Key(x) && j in gm.byName
    ensures j in AddRow(gm, x, from).byName && AddRow(gm, x, from).byName[j] == gm.byName[j]
  {
  }

  lemma AddRowSame(gm: GroupMap, x: Row, from: int)
    requires Key(x) != ""
    ensures var k := Key(x);
      k in AddRow(gm, x, from).byName &&
      AddRow(gm, x, from).byName[k] == Extend(if k in gm.byName then gm.byName[k] else Group(k, 0, [], [], {}), x, from)
  {
  }

  /** The step of GroupRowsSpec for a key other than the new row's. */
  lemma GroupRowsStepOther(p: seq<Row>, x: Row, from: int, j: string)
    requires j in Keys(p + [x]) && j != Key(x)
    requires GroupRows(p, from).byName.Keys == Keys(p)
    requires forall k :: k in Keys(p) ==> GroupRows(p, from).byName[k] == GroupOf(p, k, from)
    requires GroupRows(p + [x], from) == AddRow(GroupRows(p, from), x, from)
    ensures GroupRows(p + [x], from).byName[j] == GroupOf(p + [x], j, from)
  {
    Snoc(p, x, Key(x), from);
    AddRowOther(GroupRows(p, from), x, from, j);
    GroupOfOther(p, x, j, from);
  }

  /** The step of GroupRowsSpec for the new row's key. */
  lemma GroupRowsStepSame(p: seq<Row>, x: Row, from: int)
    requires Key(x) != ""
    requires GroupRows(p, from).byName.Keys == Keys(p)
    requires forall k :: k in Keys(p) ==> GroupRows(p, from).byName[k] == GroupOf(p, k, from)
    requires GroupRows(p + [x], from) == AddRow(GroupRows(p, from), x, from)
    ensures GroupRows(p + [x], from).byName[Key(x)] == GroupOf(p + [x], Key(x), from)
  {
    var k := Key(x);
    if k !in Keys(p) { GroupOfAbsent(p, k, from); }
    GroupOfSame(p, x, from);
    AddRowSame(GroupRows(p, from), x, from);
  }

  /** Rows with a blank habit name open no group. */
  lemma {:induction false} BlankKeyAbsent(rows: seq<Row>)
    ensures "" !in Keys(rows)
    decreases |rows|
  {
    if rows != [] {
      BlankKeyAbsent(rows[..|rows| - 1]);
    }
  }

  /** One row more: the induction step of GroupRowsSpec. */
  lemma GroupRowsStep(p: seq<Row>, x: Row, from: int)
    requires GroupRows(p, from).byName.Keys == Keys(p)
    requires forall k :: k in Keys(p) ==> GroupRows(p, from).byName[k] == GroupOf(p, k, from)
    ensures GroupRows(p + [x], from).byName.Keys == Keys(p + [x])
    ensures forall k :: k in Keys(p + [x]) ==> GroupRows(p + [x], from).byName[k] == GroupOf(p + [x], k, from)
  {
    GroupRowsKeys(p + [x], from);
    Snoc(p, x, Key(x), from);
    BlankKeyAbsent(p);
    assert (p + [x])[..|p|] == p;
    assert GroupRows(p + [x], from) == AddRow(GroupRows(p, from), x, from);
    forall j | j in Keys(p + [x]) ensures GroupRows(p + [x], from).byName[j] == GroupOf(p + [x], j, from) {
      if j == Key(x) {
        GroupRowsStepSame(p, x, from);
      } else {
        GroupRowsStepOther(p, x, from, j);
      }
    }
  }

  /** Each key of the Map is mapped to the group `GroupOf` describes. */
  lemma {:induction false} GroupRowsSpec(rows: seq<Row>, from: int)
    ensures GroupRows(rows, from).byName.Keys == Keys(rows)
    ensures forall k :: k in Keys(rows) ==> GroupRows(rows, from).byName[k] == GroupOf(rows, k, from)
    decreases |rows|
  {
    GroupRowsKeys(rows, from);
    if rows != [] {
      var p := rows[..|rows| - 1];
      assert rows == p + [rows[|rows| - 1]];
      GroupRowsSpec(p, from);
      GroupRowsStep(p, rows[|rows| - 1], from);
    }
  }

  /** The groups in the order the Map iterates them. */
  function Groups(gm: GroupMap): seq<Group>
    requires forall k :: k in gm.order ==> k in gm.byName
  {
    seq(|gm.order|, i requires 0 <= i < |gm.order| => gm.byName[gm.order[i]])
  }

  /** The groups built from `rows` are exactly the reference groups of its non-blank
      keys. */
  lemma GroupsOfRows(rows: seq<Row>, from: int)
    ensures forall i :: 0 <= i < |Groups(GroupRows(rows, from))| ==>
      Groups(GroupRows(rows, from))[i].name in Keys(rows) &&
      Groups(GroupRows(rows, from))[i] == GroupOf(rows, Groups(GroupRows(rows, from))[i].name, from)
    ensures forall k :: k in Keys(rows) ==> GroupOf(rows, k, from) in Groups(GroupRows(rows, from))
  {
    var gm := GroupRows(rows, from);
    GroupRowsSpec(rows, from);
    var gs := Groups(gm);
    forall i | 0 <= i < |gs| ensures gs[i].name in Keys(rows) && gs[i] == GroupOf(rows, gs[i].name, from) {
      assert gm.order[i] in gm.byName;
    }
    forall k | k in Keys(rows) ensures GroupOf(rows, k, from) in gs {
      assert k in gm.order;
      var i :| 0 <= i < |gm.order| && gm.order[i] == k;
      assert gs[i] == GroupOf(rows, k, from);
    }
  }

  /** The reference group of every non-blank key of `rows`. */
  ghost function RefGroups(rows: seq<Row>, from: int): map<string, Group> {
    map k | k in Keys(rows) :: GroupOf(rows, k, from)
  }

  // ---------------------------------------------------------------- summary entries

  /** One element of `summary`. */
  datatype Entry = Entry(habitName: string, habitNameDisplay: string, count: nat, avgUnits: Option<int>,
                         unit: Option<string>, unitDisplay: Option<string>, currentStreak: nat, loggedToday: bool)

  /** One element of `nudges`. */
  datatype Nudge = Nudge(habitName: string, habitNameDisplay: string, streak: nat)

  datatype Summary = Summary(summary: seq<Entry>, nudges: seq<Nudge>)

  /** The result of the `habit_logs` query: its error, or its rows (null when none). */
  datatype Fetch = FetchFailed(error: string) | Fetched(rows: Option<seq<Row>>)

  /** `getHabitSummary` either throws or returns a summary. */
  datatype Outcome = Threw(error: string) | Returned(value: Summary)

  /** `mostFrequent(units) || (units[0] ?? null) || null`. */
  function UnitChoice(units: seq<string>): Option<string> {
    var mf := MostFrequent(units);
    if mf.Some? && mf.value != "" then mf
    else if units != [] && units[0] != "" then Some(units[0])
    else None
  }

  /** With no empty unit in the list, the two fallbacks after `mostFrequent` are never
      used; `UnitsNonEmpty` shows a group's units are such a list. */
  lemma UnitChoiceIsMostFrequent(units: seq<string>)
    requires forall i :: 0 <= i < |units| ==> units[i] != ""
    ensures UnitChoice(units) == MostFrequent(units)
  {
    MostFrequentIsMode(units);
  }

  /** The summary entry of one group. The current streak is counted only when the habit
      was logged today, and it is then at least one day. */
  function EntryOf(g: Group, today: int): (e: Entry)
    ensures e.habitName == g.name && e.count == g.count
    ensures e.habitNameDisplay == TitleCase(g.name)
    ensures e.loggedToday <==> today in g.dates
    ensures e.currentStreak > 0 <==> e.loggedToday
    ensures e.loggedToday ==> e.currentStreak == Streak(g.dates, today)
    ensures e.avgUnits == Average(g.quantities)
    ensures e.avgUnits.None? <==> g.quantities == []
    ensures (forall i :: 0 <= i < |g.units| ==> g.units[i] != "") ==> e.unit == MostFrequent(g.units)
    ensures e.unitDisplay == FormatUnit(e.unit)
  {
    assert (forall i :: 0 <= i < |g.units| ==> g.units[i] != "") ==> UnitChoice(g.units) == MostFrequent(g.units) by {
      if forall i :: 0 <= i < |g.units| ==> g.units[i] != "" {
        UnitChoiceIsMostFrequent(g.units);
      }
    }
    var unit := UnitChoice(g.units);
    var logged := today in g.dates;
    Entry(g.name, TitleCase(g.name), g.count, Average(g.quantities), unit, FormatUnit(unit),
          if logged then Streak(g.dates, today) else 0, logged)
  }

  /** The units a group collects are trimmed, lower-cased units that were not blank, so
      none of them is empty. */
  lemma {:induction false} UnitsNonEmpty(rows: seq<Row>)
    ensures forall i :: 0 <= i < |Units(rows)| ==> Units(rows)[i] != ""
    decreases |rows|
  {
    if rows != [] {
      var p := rows[..|rows| - 1];
      var last := rows[|rows| - 1];
      UnitsNonEmpty(p);
      if last.unit.Some? && Trim(last.unit.value) != "" {
        assert |Lower(Trim(last.unit.value))| == |Trim(last.unit.value)|;
      }
    }
  }

  /** The unit of a habit's entry is the most frequent unit of its rows in the window. */
  lemma EntryUnitIsMostFrequent(rows: seq<Row>, k: string, today: int, from: int)
    ensures EntryOf(GroupOf(rows, k, from), today).unit == MostFrequent(Units(Window(rows, k, from)))
  {
    UnitsNonEmpty(Window(rows, k, from));
  }

  /** `summary` before sorting: one entry per group, in group order. */
  function Entries(gs: seq<Group>, today: int): seq<Entry>
    decreases |gs|
  {
    if gs == [] then [] else Entries(gs[..|gs| - 1], today) + [EntryOf(gs[|gs| - 1], today)]
  }

  /** A habit is at risk when it has a streak of at least two days up to yesterday and
      has not been logged today. */
  predicate AtRisk(g: Group, today: int) {
    Streak(g.dates, PreviousDay(today)) >= AtRiskStreak && today !in g.dates
  }

  function NudgeOf(g: Group, today: int): Nudge {
    Nudge(g.name, TitleCase(g.name), Streak(g.dates, PreviousDay(today)))
  }

  /** `atRiskForNudge`: the nudges of the at-risk groups, in group order. */
  function AtRiskNudges(gs: seq<Group>, today: int): seq<Nudge>
    decreases |gs|
  {
    if gs == [] then []
    else AtRiskNudges(gs[..|gs| - 1], today) + (if AtRisk(gs[|gs| - 1], today) then [NudgeOf(gs[|gs| - 1], today)] else [])
  }

  /** The at-risk list holds a nudge for each at-risk group and nothing else; `m` is
      any table that finds each group by its name. */
  lemma {:induction false} AtRiskNudgesMembers(gs: seq<Group>, today: int, m: map<string, Group>)
    requires forall i :: 0 <= i < |gs| ==> gs[i].name in m && m[gs[i].name] == gs[i]
    ensures forall n :: n in AtRiskNudges(gs, today) ==>
      n.habitName in m && AtRisk(m[n.habitName], today) && n == NudgeOf(m[n.habitName], today)
    ensures forall i :: 0 <= i < |gs| && AtRisk(gs[i], today) ==> NudgeOf(gs[i], today) in AtRiskNudges(gs, today)
    decreases |gs|
  {
    if gs != [] {
      var p := gs[..|gs| - 1];
      var g := gs[|gs| - 1];
      AtRiskNudgesMembers(p, today, m);
      var q := AtRiskNudges(p, today);
      var r := AtRiskNudges(gs, today);
      assert r == q + (if AtRisk(g, today) then [NudgeOf(g, today)] else []);
      forall i | 0 <= i < |gs| - 1 && AtRisk(gs[i], today) ensures NudgeOf(gs[i], today) in r {
        assert p[i] == gs[i];
      }
    }
  }

  // ---------------------------------------------------------------- ordering

  predicate SortedByName(es: seq<Entry>) {
    forall i, j :: 0 <= i < j < |es| ==> NotAfter(es[i].habitName, es[j].habitName)
  }

  /** Inserts `e` before the first entry whose name comes after it: one step of a stable
      sort by name. */
  function InsertByName(e: Entry, es: seq<Entry>): seq<Entry>
    decreases |es|
  {
    if es == [] then [e]
    else if Less(e.habitName, es[0].habitName) then [e] + es
    else [es[0]] + InsertByName(e, es[1..])
  }

  lemma SortedByNameCons(h: Entry, r: seq<Entry>)
    requires SortedByName(r)
    requires forall x :: x in r ==> NotAfter(h.habitName, x.habitName)
    ensures SortedByName([h] + r)
  {
    forall i, j | 0 <= i < j < |[h] + r| ensures NotAfter(([h] + r)[i].habitName, ([h] + r)[j].habitName) {
      assert ([h] + r)[j] == r[j - 1];
      if i > 0 {
        assert ([h] + r)[i] == r[i - 1];
      }
    }
  }

  /** An entry whose name comes before the first name of a sorted list can go in
      front of it. */
  lemma InsertFront(e: Entry, es: seq<Entry>)
    requires SortedByName(es) && es != [] && Less(e.habitName, es[0].habitName)
    ensures SortedByName([e] + es)
  {
    var h := es[0];
    assert NotAfter(e.habitName, h.habitName) by {
      if Less(h.habitName, e.habitName) {
        LessTransitive(e.habitName, h.habitName, e.habitName);
        LessIrreflexive(e.habitName);
      }
    }
    forall x | x in es ensures NotAfter(e.habitName, x.habitName) {
      var j :| 0 <= j < |es| && es[j] == x;
      if j > 0 {
        NotAfterTransitive(e.habitName, h.habitName, x.habitName);
      }
    }
    SortedByNameCons(e, es);
  }

  lemma {:induction false} InsertByNameSpec(e: Entry, es: seq<Entry>)
    requires SortedByName(es)
    ensures multiset(InsertByName(e, es)) == multiset(es) + multiset{e}
    ensures SortedByName(InsertByName(e, es))
    decreases |es|
  {
    if es != [] {
      var h := es[0];
      var t := es[1..];
      assert es == [h] + t;
      if Less(e.habitName, h.habitName) {
        InsertFront(e, es);
      } else {
        InsertByNameSpec(e, t);
        var r := InsertByName(e, t);
        forall x | x in r ensures NotAfter(h.habitName, x.habitName) {
          assert x in multiset(r);
        }
        SortedByNameCons(h, r);
      }
    }
  }

  /** The summary sort by `habit_name` (a stable insertion sort, comparing names
      lexicographically). */
  function SortByName(es: seq<Entry>): seq<Entry>
    decreases |es|
  {
    if es == [] then [] else InsertByName(es[|es| - 1], SortByName(es[..|es| - 1]))
  }

  /** No two entries share a name. */
  predicate DistinctNames(es: seq<Entry>) {
    forall i, j :: 0 <= i < j < |es| ==> es[i].habitName != es[j].habitName
  }

  /** The names ascend strictly, so each name occurs once. */
  predicate StrictlyByName(es: seq<Entry>) {
    forall i, j :: 0 <= i < j < |es| ==> Less(es[i].habitName, es[j].habitName)
  }

  lemma StrictlyByNameCons(h: Entry, r: seq<Entry>)
    requires StrictlyByName(r)
    requires forall x :: x in r ==> Less(h.habitName, x.habitName)
    ensures StrictlyByName([h] + r)
  {
    forall i, j | 0 <= i < j < |[h] + r| ensures Less(([h] + r)[i].habitName, ([h] + r)[j].habitName) {
      assert ([h] + r)[j] == r[j - 1];
      if i > 0 {
        assert ([h] + r)[i] == r[i - 1];
      }
    }
  }

  lemma {:induction false} InsertByNameMembers(e: Entry, es: seq<Entry>)
    ensures forall x :: x in InsertByName(e, es) <==> x == e || x in es
    decreases |es|
  {
    if es != [] {
      assert es == [es[0]] + es[1..];
      InsertByNameMembers(e, es[1..]);
    }
  }

  /** Inserting an entry with a new name into a list with strictly ascending names
      keeps the names strictly ascending. */
  lemma {:induction false} InsertByNameStrict(e: Entry, es: seq<Entry>)
    requires StrictlyByName(es)
    requires forall x :: x in es ==> x.habitName != e.habitName
    ensures StrictlyByName(InsertByName(e, es))
    decreases |es|
  {
    if es != [] {
      var h := es[0];
      var t := es[1..];
      assert es == [h] + t;
      if Less(e.habitName, h.habitName) {
        forall x | x in es ensures Less(e.habitName, x.habitName) {
          var j :| 0 <= j < |es| && es[j] == x;
          if j > 0 {
            LessTransitive(e.habitName, h.habitName, x.habitName);
          }
        }
        StrictlyByNameCons(e, es);
      } else {
        LessTotal(e.habitName, h.habitName);
        InsertByNameStrict(e, t);
        var r := InsertByName(e, t);
        InsertByNameMembers(e, t);
        forall x | x in r ensures Less(h.habitName, x.habitName) {
          if x != e {
            var j :| 0 <= j < |t| && t[j] == x;
            assert es[j + 1] == x;
          }
        }
        StrictlyByNameCons(h, r);
      }
    }
  }

  /** Sorting entries with distinct names leaves the names strictly ascending. */
  lemma {:induction false} SortByNameStrict(es: seq<Entry>)
    requires DistinctNames(es)
    ensures StrictlyByName(SortByName(es))
    decreases |es|
  {
    if es != [] {
      var p := es[..|es| - 1];
      var x := es[|es| - 1];
      assert es == p + [x];
      SortByNameStrict(p);
      SortByNameSpec(p);
      forall y | y in SortByName(p) ensures y.habitName != x.habitName {
        assert y in multiset(SortByName(p));
        var j :| 0 <= j < |p| && p[j] == y;
      }
      InsertByNameStrict(x, SortByName(p));
    }
  }

  /** The sorted summary is in name order and holds the same entries. */
  lemma {:induction false} SortByNameSpec(es: seq<Entry>)
    ensures SortedByName(SortByName(es))
    ensures multiset(SortByName(es)) == multiset(es)
    decreases |es|
  {
    if es != [] {
      var p := es[..|es| - 1];
      assert es == p + [es[|es| - 1]];
      SortByNameSpec(p);
      InsertByNameSpec(es[|es| - 1], SortByName(p));
    }
  }

  /** `a` is `b` with some elements left out and the others kept in their order. */
  predicate SubsequenceOf(a: seq<Entry>, b: seq<Entry>)
    decreases |b|
  {
    if a == [] then true
    else if b == [] then false
    else (a[0] == b[0] && SubsequenceOf(a[1..], b[1..])) || SubsequenceOf(a, b[1..])
  }

  /** `summary.filter((s) => s.count > 0)`. */
  function Logged(es: seq<Entry>): (r: seq<Entry>)
    ensures forall e :: e in r <==> e in es && e.count > 0
    ensures SortedByName(es) ==> SortedByName(r)
    decreases |es|
  {
    if es == [] then []
    else
      var t := es[1..];
      assert es == [es[0]] + t;
      var l := Logged(t);
      if es[0].count > 0 then [es[0]] + l else l
  }

  /** The filter keeps the surviving entries in their order. */
  lemma {:induction false} LoggedKeepsOrder(es: seq<Entry>)
    ensures SubsequenceOf(Logged(es), es)
    decreases |es|
  {
    if es != [] {
      var t := es[1..];
      var l := Logged(t);
      LoggedKeepsOrder(t);
      if es[0].count > 0 {
        assert Logged(es) == [es[0]] + l;
        assert ([es[0]] + l)[1..] == l;
      }
    }
  }

  /** The filter keeps the names strictly ascending. */
  lemma {:induction false} LoggedStrict(es: seq<Entry>)
    requires StrictlyByName(es)
    ensures StrictlyByName(Logged(es))
    decreases |es|
  {
    if es != [] {
      var t := es[1..];
      assert es == [es[0]] + t;
      LoggedStrict(t);
      if es[0].count > 0 {
        forall x | x in Logged(t) ensures Less(es[0].habitName, x.habitName) {
          var j :| 0 <= j < |t| && t[j] == x;
          assert es[j + 1] == x;
        }
        StrictlyByNameCons(es[0], Logged(t));
      }
    }
  }

  predicate SortedByStreak(ns: seq<Nudge>) {
    forall i, j :: 0 <= i < j < |ns| ==> ns[i].streak >= ns[j].streak
  }

  /** Inserts `n` before the first nudge with a smaller streak: one step of a stable
      sort by descending streak. */
  function InsertByStreak(n: Nudge, ns: seq<Nudge>): seq<Nudge>
    decreases |ns|
  {
    if ns == [] then [n]
    else if n.streak > ns[0].streak then [n] + ns
    else [ns[0]] + InsertByStreak(n, ns[1..])
  }

  lemma SortedByStreakCons(h: Nudge, r: seq<Nudge>)
    requires SortedByStreak(r)
    requires forall x :: x in r ==> h.streak >= x.streak
    ensures SortedByStreak([h] + r)
  {
    forall i, j | 0 <= i < j < |[h] + r| ensures ([h] + r)[i].streak >= ([h] + r)[j].streak {
      assert ([h] + r)[j] == r[j - 1];
      if i > 0 {
        assert ([h] + r)[i] == r[i - 1];
      }
    }
  }

  lemma {:induction false} InsertByStreakSpec(n: Nudge, ns: seq<Nudge>)
    requires SortedByStreak(ns)
    ensures multiset(InsertByStreak(n, ns)) == multiset(ns) + multiset{n}
    ensures SortedByStreak(InsertByStreak(n, ns))
    decreases |ns|
  {
    if ns != [] {
      var h := ns[0];
      var t := ns[1..];
      assert ns == [h] + t;
      if n.streak > h.streak {
        SortedByStreakCons(n, ns);
      } else {
        InsertByStreakSpec(n, t);
        var r := InsertByStreak(n, t);
        forall x | x in r ensures h.streak >= x.streak {
          assert x in multiset(r);
        }
        SortedByStreakCons(h, r);
      }
    }
  }

  /** `atRiskForNudge.sort((a, b) => b.streak - a.streak)`. */
  function SortByStreak(ns: seq<Nudge>): seq<Nudge>
    decreases |ns|
  {
    if ns == [] then [] else InsertByStreak(ns[|ns| - 1], SortByStreak(ns[..|ns| - 1]))
  }

  /** The sorted nudges are in non-increasing streak order and are the same nudges. */
  lemma {:induction false} SortByStreakSpec(ns: seq<Nudge>)
    ensures SortedByStreak(SortByStreak(ns))
    ensures multiset(SortByStreak(ns)) == multiset(ns)
    decreases |ns|
  {
    if ns != [] {
      var p := ns[..|ns| - 1];
      assert ns == p + [ns[|ns| - 1]];
      SortByStreakSpec(p);
      InsertByStreakSpec(ns[|ns| - 1], SortByStreak(p));
    }
  }

  /** `.slice(0, n)`. */
  function Take(ns: seq<Nudge>, n: nat): (r: seq<Nudge>)
    ensures |r| <= n && |r| <= |ns| && r == ns[..|r|]
    ensures |ns| > n ==> |r| == n
  {
    if |ns| <= n then ns else ns[..n]
  }

  // ---------------------------------------------------------------- the summary

  /** The summary of the fetched rows. */
  function Summarize(rows: seq<Row>, today: int, from: int): Summary {
    var gs := Groups(GroupRows(rows, from));
    Summary(Logged(SortByName(Entries(gs, today))), Take(SortByStreak(AtRiskNudges(gs, today)), MaxNudges))
  }

  /** `getHabitSummary`: a query error is thrown as it is; no rows give an empty summary
      and no nudges. */
  function HabitSummaryOf(fetch: Fetch, today: int, from: int): (r: Outcome)
    ensures fetch.FetchFailed? ==> r == Threw(fetch.error)
    ensures fetch.Fetched? && (fetch.rows.None? || fetch.rows.value == []) ==> r == Returned(Summary([], []))
    ensures fetch.Fetched? ==> r.Returned?
  {
    match fetch
    case FetchFailed(e) => Threw(e)
    case Fetched(rows) =>
      if rows.None? || rows.value == [] then Returned(Summary([], []))
      else Returned(Summarize(rows.value, today, from))
  }

  // ---------------------------------------------------------------- what the summary promises

  /** The entries of a sequence of groups are the entries of its members; `m` is any
      table that finds each group by its name. */
  lemma {:induction false} EntriesMembers(gs: seq<Group>, today: int, m: map<string, Group>)
    requires forall i :: 0 <= i < |gs| ==> gs[i].name in m && m[gs[i].name] == gs[i]
    ensures forall e :: e in Entries(gs, today) ==> e.habitName in m && e == EntryOf(m[e.habitName], today)
    ensures forall i :: 0 <= i < |gs| ==> EntryOf(gs[i], today) in Entries(gs, today)
    decreases |gs|
  {
    if gs != [] {
      var p := gs[..|gs| - 1];
      EntriesMembers(p, today, m);
      var r := Entries(gs, today);
      assert r == Entries(p, today) + [EntryOf(gs[|gs| - 1], today)];
      forall i | 0 <= i < |gs| - 1 ensures EntryOf(gs[i], today) in r {
        assert p[i] == gs[i];
      }
    }
  }

  lemma {:induction false} EntriesIndex(gs: seq<Group>, today: int)
    ensures |Entries(gs, today)| == |gs|
    ensures forall i :: 0 <= i < |gs| ==> Entries(gs, today)[i] == EntryOf(gs[i], today)
    decreases |gs|
  {
    if gs != [] {
      var p := gs[..|gs| - 1];
      EntriesIndex(p, today);
      var r := Entries(gs, today);
      assert r == Entries(p, today) + [EntryOf(gs[|gs| - 1], today)];
      forall i | 0 <= i < |gs| - 1 ensures r[i] == EntryOf(gs[i], today) {
        assert p[i] == gs[i];
      }
    }
  }

  /** The names of the summary ascend strictly: no habit has two entries. */
  lemma SummaryNamesAscend(rows: seq<Row>, today: int, from: int)
    ensures StrictlyByName(Summarize(rows, today, from).summary)
  {
    var gm := GroupRows(rows, from);
    var gs := Groups(gm);
    var es := Entries(gs, today);
    EntriesIndex(gs, today);
    forall i, j | 0 <= i < j < |es| ensures es[i].habitName != es[j].habitName {
      assert gm.order[i] in gm.byName && gm.order[j] in gm.byName;
      assert es[i].habitName == gm.order[i] && es[j].habitName == gm.order[j];
    }
    SortByNameStrict(es);
    LoggedStrict(SortByName(es));
  }

  /** `summary` lists, in name order, the entry of every habit logged at least once in
      the window, and nothing else. */
  lemma SummaryEntries(rows: seq<Row>, today: int, from: int)
    ensures SortedByName(Summarize(rows, today, from).summary)
    ensures forall e :: e in Summarize(rows, today, from).summary <==>
      && e.habitName in Keys(rows)
      && e == EntryOf(GroupOf(rows, e.habitName, from), today)
      && |Window(rows, e.habitName, from)| > 0
    ensures forall e :: e in Summarize(rows, today, from).summary ==>
      e.unit == MostFrequent(Units(Window(rows, e.habitName, from)))
  {
    var es := Entries(Groups(GroupRows(rows, from)), today);
    EntriesOfRows(rows, today, from);
    SortByNameSpec(es);
    var sorted := SortByName(es);
    forall e ensures e in sorted <==> e in es {
      assert e in sorted <==> e in multiset(sorted);
    }
    assert Summarize(rows, today, from).summary == Logged(sorted);
    forall k ensures EntryOf(GroupOf(rows, k, from), today).unit == MostFrequent(Units(Window(rows, k, from))) {
      EntryUnitIsMostFrequent(rows, k, today, from);
    }
  }

  /** Before sorting and filtering, there is one entry for every non-blank key. */
  lemma EntriesOfRows(rows: seq<Row>, today: int, from: int)
    ensures forall e :: e in Entries(Groups(GroupRows(rows, from)), today) <==>
      e.habitName in Keys(rows) && e == EntryOf(GroupOf(rows, e.habitName, from), today)
  {
    var gs := Groups(GroupRows(rows, from));
    GroupsOfRows(rows, from);
    EntriesMembers(gs, today, RefGroups(rows, from));
    forall k | k in Keys(rows) ensures EntryOf(GroupOf(rows, k, from), today) in Entries(gs, today) {
      var i :| 0 <= i < |gs| && gs[i] == GroupOf(rows, k, from);
    }
  }

  /** A nudge of a list sorted by streak that the cap drops comes after a full set of
      nudges with streaks at least as long. */
  lemma TakeKeepsLongest(sorted: seq<Nudge>, x: Nudge)
    requires SortedByStreak(sorted)
    requires x in sorted && x !in Take(sorted, MaxNudges)
    ensures |Take(sorted, MaxNudges)| == MaxNudges
    ensures forall n :: n in Take(sorted, MaxNudges) ==> n.streak >= x.streak
  {
    var ns := Take(sorted, MaxNudges);
    var idx :| 0 <= idx < |sorted| && sorted[idx] == x;
    forall n | n in ns ensures n.streak >= x.streak {
      var i :| 0 <= i < |ns| && ns[i] == n;
      assert sorted[i] == n;
    }
  }

  /** Sorting the at-risk list and keeping its first three keeps the longest streaks:
      a nudge is dropped only when three with streaks at least as long are kept. */
  lemma CappedNudges(at: seq<Nudge>)
    ensures |Take(SortByStreak(at), MaxNudges)| <= MaxNudges
    ensures SortedByStreak(Take(SortByStreak(at), MaxNudges))
    ensures forall n :: n in Take(SortByStreak(at), MaxNudges) ==> n in at
    ensures forall x :: x in at ==>
      || x in Take(SortByStreak(at), MaxNudges)
      || (&& |Take(SortByStreak(at), MaxNudges)| == MaxNudges
          && forall n :: n in Take(SortByStreak(at), MaxNudges) ==> n.streak >= x.streak)
  {
    SortByStreakSpec(at);
    var sorted := SortByStreak(at);
    var ns := Take(sorted, MaxNudges);
    forall n | n in ns ensures n in at {
      assert n in multiset(sorted);
    }
    forall x | x in at && x !in ns
      ensures |ns| == MaxNudges && forall n :: n in ns ==> n.streak >= x.streak
    {
      assert x in multiset(sorted);
      TakeKeepsLongest(sorted, x);
    }
  }

  /** `nudges` holds at most three at-risk habits, longest streak first; an at-risk
      habit is left out only when three habits with streaks at least as long are shown. */
  lemma NudgeRules(rows: seq<Row>, today: int, from: int)
    ensures |Summarize(rows, today, from).nudges| <= MaxNudges
    ensures SortedByStreak(Summarize(rows, today, from).nudges)
    ensures forall n :: n in Summarize(rows, today, from).nudges ==>
      && n.habitName in Keys(rows)
      && AtRisk(GroupOf(rows, n.habitName, from), today)
      && n == NudgeOf(GroupOf(rows, n.habitName, from), today)
    ensures forall k :: k in Keys(rows) && AtRisk(GroupOf(rows, k, from), today) ==>
      || NudgeOf(GroupOf(rows, k, from), today) in Summarize(rows, today, from).nudges
      || (&& |Summarize(rows, today, from).nudges| == MaxNudges
          && forall n :: n in Summarize(rows, today, from).nudges ==>
               n.streak >= NudgeOf(GroupOf(rows, k, from), today).streak)
  {
    var gs := Groups(GroupRows(rows, from));
    var at := AtRiskNudges(gs, today);
    GroupsOfRows(rows, from);
    AtRiskNudgesMembers(gs, today, RefGroups(rows, from));
    CappedNudges(at);
    forall k | k in Keys(rows) && AtRisk(GroupOf(rows, k, from), today)
      ensures NudgeOf(GroupOf(rows, k, from), today) in at
    {
      var i :| 0 <= i < |gs| && gs[i] == GroupOf(rows, k, from);
    }
  }

  /** A habit logged today, yesterday and the day before has a current streak of three. */
  lemma ThreeDayStreak(t: int)
    ensures Streak({t, t - 1, t - 2}, t) == 3
  {
    assert Run(t, 1) == {t};
    assert Run(t, 2) == {t, t - 1};
    assert Run(t, 3) == {t, t - 1, t - 2};
    StreakUnique({t, t - 1, t - 2}, t, 3);
  }

  /** A habit logged yesterday and the day before, but not today, is nudged with a streak
      of two. */
  lemma TwoDayStreakAtRisk(g: Group, t: int)
    requires g.dates == {t - 1, t - 2}
    ensures AtRisk(g, t) && NudgeOf(g, t).streak == 2
  {
    assert Run(t - 1, 1) == {t - 1};
    assert Run(t - 1, 2) == {t - 1, t - 2};
    StreakUnique(g.dates, t - 1, 2);
  }

  /** Two quantities of 30 and 40 average to 35. */
  lemma AverageExample()
    ensures Average([30, 40]) == Some(35)
  {
    assert Sum([30, 40]) == 70 by {
      assert [30, 40][..1] == [30];
      assert [30][..0] == [];
    }
  }

  // ---------------------------------------------------------------- getHabitSummary

  lemma GroupRowsUnfold(rows: seq<Row>, i: nat, from: int)
    requires i < |rows|
    ensures GroupRows(rows[..i + 1], from) == AddRow(GroupRows(rows[..i], from), rows[i], from)
  {
    assert rows[..i + 1][..i] == rows[..i];
  }

  /** The updates the grouping loop makes to the row's group record. */
  method ExtendLog(g: Group, row: Row, from: int) returns (e: Group)
    ensures e == Extend(g, row, from)
  {
    e := g;
    e := e.(dates := e.dates + {row.date});
    if row.date >= from {
      e := e.(count := e.count + 1);
      if row.quantity.Some? {
        e := e.(quantities := e.quantities + [row.quantity.value]);
      }
      if row.unit.Some? && Trim(row.unit.value) != "" {
        e := e.(units := e.units + [Lower(Trim(row.unit.value))]);
      }
    }
  }

  /** One turn of the grouping loop: a row with a blank name is skipped; otherwise the
      row's group is created if new and then updated. */
  method AddLog(byName: map<string, Group>, order: seq<string>, row: Row, from: int)
    returns (byName': map<string, Group>, order': seq<string>)
    ensures GroupMap(byName', order') == AddRow(GroupMap(byName, order), row, from)
  {
    byName', order' := byName, order;
    var name := Lower(Trim(row.habitName.GetOr("")));
    if name == "" {
      return;
    }
    if name !in byName' {
      byName' := byName'[name := Group(name, 0, [], [], {})];
      order' := order' + [name];
    }
    var e := ExtendLog(byName'[name], row, from);
    byName' := byName'[name := e];
  }

  /** The grouping loop over the fetched rows. */
  method GroupLogs(rows: seq<Row>, from: int) returns (byName: map<string, Group>, order: seq<string>)
    ensures GroupMap(byName, order) == GroupRows(rows, from)
  {
    byName, order := map[], [];
    for i := 0 to |rows|
      invariant GroupMap(byName, order) == GroupRows(rows[..i], from)
    {
      GroupRowsUnfold(rows, i, from);
      byName, order := AddLog(byName, order, rows[i], from);
    }
    assert rows[..|rows|] == rows;
  }

  /** The summary entry and, when at risk, the nudge of one group, computed with the
      scanning and counting loops. */
  method SummarizeGroup(e: Group, today: int) returns (entry: Entry, nudge: Option<Nudge>)
    ensures entry == EntryOf(e, today)
    ensures nudge == if AtRisk(e, today) then Some(NudgeOf(e, today)) else None
  {
    var avg := if |e.quantities| > 0 then Some(RoundedMean(e.quantities)) else None;
    var mf := MostFrequentScan(e.units);
    var unit := if mf.Some? && mf.value != "" then mf
                else if |e.units| > 0 && e.units[0] != "" then Some(e.units[0])
                else None;
    var loggedToday := today in e.dates;
    var currentStreak := 0;
    if loggedToday {
      currentStreak := CountConsecutiveDaysFrom(e.dates, today);
    }
    var streakAsOfYesterday := CountConsecutiveDaysFrom(e.dates, PreviousDay(today));
    var habitNameDisplay := TitleCase(e.name);
    entry := Entry(e.name, habitNameDisplay, e.count, avg, unit, FormatUnit(unit), currentStreak, loggedToday);
    nudge := None;
    if streakAsOfYesterday >= AtRiskStreak && !loggedToday {
      nudge := Some(Nudge(e.name, habitNameDisplay, streakAsOfYesterday));
    }
  }

  /** The loop over the Map: one entry per group, and the nudges of the at-risk
      groups, in the Map's order. */
  method SummarizeGroups(byName: map<string, Group>, order: seq<string>, today: int)
    returns (summary: seq<Entry>, atRisk: seq<Nudge>)
    requires forall k :: k in order ==> k in byName
    ensures summary == Entries(Groups(GroupMap(byName, order)), today)
    ensures atRisk == AtRiskNudges(Groups(GroupMap(byName, order)), today)
  {
    ghost var gs := Groups(GroupMap(byName, order));
    summary, atRisk := [], [];
    for i := 0 to |order|
      invariant summary == Entries(gs[..i], today)
      invariant atRisk == AtRiskNudges(gs[..i], today)
    {
      var g := byName[order[i]];
      assert g == gs[i];
      assert gs[..i + 1][..i] == gs[..i];
      assert Entries(gs[..i + 1], today) == Entries(gs[..i], today) + [EntryOf(g, today)];
      assert AtRiskNudges(gs[..i + 1], today) ==
        AtRiskNudges(gs[..i], today) + (if AtRisk(g, today) then [NudgeOf(g, today)] else []);
      var entry, nudge := SummarizeGroup(g, today);
      summary := summary + [entry];
      if nudge.Some? {
        atRisk := atRisk + [nudge.value];
      }
    }
    assert gs[..|order|] == gs;
  }

  /** `getHabitSummary`, after the query: the grouping loop, the loop over the groups,
      then the sorts, the filter and the cap. */
  method GetHabitSummary(fetch: Fetch, today: int, summaryFrom: int) returns (out: Outcome)
    ensures out == HabitSummaryOf(fetch, today, summaryFrom)
  {
    if fetch.FetchFailed? {
      return Threw(fetch.error);
    }
    if fetch.rows.None? || fetch.rows.value == [] {
      return Returned(Summary([], []));
    }
    var byName, order := GroupLogs(fetch.rows.value, summaryFrom);
    var summary, atRisk := SummarizeGroups(byName, order, today);
    var summaryLast7 := Logged(SortByName(summary));
    var nudges := Take(SortByStreak(atRisk), MaxNudges);
    out := Returned(Summary(summaryLast7, nudges));
  }
}
