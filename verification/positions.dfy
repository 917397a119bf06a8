/** The position classifier: which records are open, and the two independent
    three-clause tests that count a record as short and as long. main.py wraps
    it in `get_open_position_counts`; take_trade.py writes it inline. */
module Positions {
  import opened Common

  /** One key of a position record as Python's dict sees it: missing,
      present with the value None, or present with a value. */
  datatype Field<T> = Absent | Null | Value(v: T)

  /** A position record from `fetch_positions`. `contracts` and `side` are only
      read through `dict.get`, so a missing key and None are the same there.
      `infoSide` is the `side` key of the nested `info` dict: Absent when there
      is no `info` or it has no `side` key (the clause is false), Null when
      `info` or its `side` is None (evaluating the test raises). */
  datatype Position = Position(
    symbol: string,
    contracts: Option<real>,
    side: Option<string>,
    size: Field<real>,
    infoSide: Field<string>)

  /** A record is open when its `contracts` is present and nonzero. */
  predicate IsOpen(p: Position) {
    p.contracts.Some? && p.contracts.value != 0.0
  }

  function OpenPositions(ps: seq<Position>): (r: seq<Position>)
    ensures |r| <= |ps|
    ensures forall p :: p in r ==> IsOpen(p)
  {
    if ps == [] then []
    else (if IsOpen(ps[0]) then [ps[0]] else []) + OpenPositions(ps[1..])
  }

  /** The open records, in order, each repeated record as often as it was
      fetched. */
  lemma {:induction false} OpenPositionsKept(ps: seq<Position>)
    ensures IsSubsequence(OpenPositions(ps), ps)
    ensures forall p :: p in OpenPositions(ps) <==> p in ps && IsOpen(p)
    ensures forall p :: multiset(OpenPositions(ps))[p] == if IsOpen(p) then multiset(ps)[p] else 0
  {
    if ps != [] {
      OpenPositionsKept(ps[1..]);
      var rest := OpenPositions(ps[1..]);
      assert ps == [ps[0]] + ps[1..];
      assert multiset(ps) == multiset{ps[0]} + multiset(ps[1..]);
      if IsOpen(ps[0]) {
        assert OpenPositions(ps) == [ps[0]] + rest;
        assert ([ps[0]] + rest)[1..] == rest;
        assert multiset(OpenPositions(ps)) == multiset{ps[0]} + multiset(rest);
      } else {
        assert OpenPositions(ps) == rest;
      }
      assert forall p :: p in ps <==> p == ps[0] || p in ps[1..];
    }
  }

  /** Filtering a concatenation filters each part. */
  lemma {:induction false} OpenPositionsAppend(a: seq<Position>, b: seq<Position>)
    ensures OpenPositions(a + b) == OpenPositions(a) + OpenPositions(b)
  {
    if a == [] {
      assert a + b == b;
    } else {
      assert (a + b)[0] == a[0];
      assert (a + b)[1..] == a[1..] + b;
      OpenPositionsAppend(a[1..], b);
    }
  }

  /** Which tally a test feeds. */
  datatype Direction = Short | Long

  function SideWord(d: Direction): string {
    if d == Short then "short" else "long"
  }

  function InfoWord(d: Direction): string {
    if d == Short then "sell" else "buy"
  }

  predicate SizePoints(x: real, d: Direction) {
    if d == Short then x < 0.0 else x > 0.0
  }

  function LowerChar(c: char): char {
    if 'A' <= c <= 'Z' then (c as int + 32) as char else c
  }

  /** `str.lower()` on ASCII letters. */
  function LowerAscii(s: string): string {
    seq(|s|, i requires 0 <= i < |s| => LowerChar(s[i]))
  }

  /** The test for direction `d`: the side word, else the sign of `size`
      when that key is present, else the lower-cased raw info side, each
      clause tried only when the ones before it failed; None when evaluating
      a clause raises. */
  function Matches(p: Position, d: Direction): (r: Option<bool>)
    ensures p.side == Some(SideWord(d)) ==> r == Some(true)
    ensures r.None? <==>
      (p.side != Some(SideWord(d)) &&
       (p.size.Null? || (!(p.size.Value? && SizePoints(p.size.v, d)) && p.infoSide.Null?)))
  {
    if p.side == Some(SideWord(d)) then Some(true)
    else if p.size.Null? then None
    else if p.size.Value? && SizePoints(p.size.v, d) then Some(true)
    else match p.infoSide
      case Absent => Some(false)
      case Null => None
      case Value(s) => Some(LowerAscii(s) == InfoWord(d))
  }

  /** When the test does not raise, it holds exactly when one of its three
      clauses does: the side word, the sign of `size`, or the raw info side
      read in lower case. */
  lemma MatchesValue(p: Position, d: Direction)
    ensures Matches(p, d).Some? ==>
      (Matches(p, d).value <==>
         || p.side == Some(SideWord(d))
         || (p.size.Value? && SizePoints(p.size.v, d))
         || (p.infoSide.Value? && LowerAscii(p.infoSide.v) == InfoWord(d)))
  {
  }

  /** The records whose test for `d` holds, in order; None when the test
      raises on some record. */
  function Select(ps: seq<Position>, d: Direction): (r: Option<seq<Position>>)
    ensures r.Some? ==> |r.value| <= |ps|
  {
    if ps == [] then Some([])
    else match Matches(ps[0], d)
      case None => None
      case Some(hit) =>
        match Select(ps[1..], d)
        case None => None
        case Some(rest) => Some(if hit then [ps[0]] + rest else rest)
  }

  /** The records whose test holds, in order, each repeated record as often
      as it occurs. */
  lemma {:induction false} SelectKept(ps: seq<Position>, d: Direction)
    ensures Select(ps, d).Some? ==>
      && IsSubsequence(Select(ps, d).value, ps)
      && (forall p :: p in Select(ps, d).value <==> p in ps && Matches(p, d) == Some(true))
      && (forall p :: multiset(Select(ps, d).value)[p] ==
            if Matches(p, d) == Some(true) then multiset(ps)[p] else 0)
  {
    if ps != [] && Select(ps, d).Some? {
      SelectKept(ps[1..], d);
      var rest := Select(ps[1..], d).value;
      assert ps == [ps[0]] + ps[1..];
      assert multiset(ps) == multiset{ps[0]} + multiset(ps[1..]);
      if Matches(ps[0], d) == Some(true) {
        assert Select(ps, d).value == [ps[0]] + rest;
        assert ([ps[0]] + rest)[1..] == rest;
        assert multiset(Select(ps, d).value) == multiset{ps[0]} + multiset(rest);
      } else {
        assert Select(ps, d).value == rest;
      }
      assert forall p :: p in ps <==> p == ps[0] || p in ps[1..];
    }
  }

  /** The comprehension over a concatenation raises exactly when it raises on
      one of the parts, and otherwise keeps the records of each part. */
  lemma {:induction false} SelectAppend(a: seq<Position>, b: seq<Position>, d: Direction)
    ensures Select(a + b, d).Some? <==> Select(a, d).Some? && Select(b, d).Some?
    ensures Select(a + b, d).Some? ==>
      Select(a + b, d).value == Select(a, d).value + Select(b, d).value
  {
    if a == [] {
      assert a + b == b;
    } else {
      assert (a + b)[0] == a[0];
      assert (a + b)[1..] == a[1..] + b;
      SelectAppend(a[1..], b, d);
      if Matches(a[0], d) == Some(true) && Select(a + b, d).Some? {
        assert Select(a + b, d).value == [a[0]] + Select(a[1..] + b, d).value;
      }
    }
  }

  /** The comprehension on a single record. */
  lemma SelectOne(p: Position, d: Direction)
    ensures Select([p], d) ==
      match Matches(p, d)
      case None => None
      case Some(hit) => Some(if hit then [p] else [])
  {
    assert [p][0] == p && [p][1..] == [];
    assert [p] + [] == [p];
  }

  /** The indices of the records whose test for `d` holds. */
  ghost function Hits(ps: seq<Position>, d: Direction): set<int> {
    set i | 0 <= i < |ps| && Matches(ps[i], d) == Some(true)
  }

  /** A comprehension that does not raise keeps one record per index whose
      test holds. */
  lemma {:induction false} SelectCount(ps: seq<Position>, d: Direction)
    ensures Select(ps, d).Some? ==> |Select(ps, d).value| == |Hits(ps, d)|
    decreases |ps|
  {
    if ps != [] && Select(ps, d).Some? {
      var n := |ps| - 1;
      var init, last := ps[..n], ps[n];
      assert ps == init + [last];
      SelectAppend(init, [last], d);
      SelectOne(last, d);
      SelectCount(init, d);
      HitsOfLast(ps, d);
    }
  }

  /** The hits of a list are those of its front plus, when its test holds,
      the index of its last record. */
  lemma HitsOfLast(ps: seq<Position>, d: Direction)
    requires ps != []
    ensures var n := |ps| - 1;
      |Hits(ps, d)| == |Hits(ps[..n], d)| + if Matches(ps[n], d) == Some(true) then 1 else 0
  {
    var n := |ps| - 1;
    var whole, front := Hits(ps, d), Hits(ps[..n], d);
    var last: set<int> := if Matches(ps[n], d) == Some(true) then {n} else {};
    forall i | i in whole
      ensures i in front + last
    {
      if i < n {
        assert ps[..n][i] == ps[i];
      }
    }
    forall i | i in front
      ensures i in whole
    {
      assert ps[..n][i] == ps[i];
    }
    assert whole == front + last;
    assert front * last == {};
  }


  lemma {:induction false} SelectFailsIff(ps: seq<Position>, d: Direction)
    ensures Select(ps, d).None? <==> exists i :: 0 <= i < |ps| && Matches(ps[i], d).None?
  {
    if ps != [] {
      SelectFailsIff(ps[1..], d);
      if Matches(ps[0], d).Some? {
        forall i | 1 <= i < |ps|
          ensures Matches(ps[i], d) == Matches(ps[1..][i - 1], d)
        {
        }
      }
    }
  }

  datatype Counts = Counts(shortCount: nat, longCount: nat)

  /** How many open records the short test and the long test keep; None when
      one of the two comprehensions raises. */
  function CountSides(open: seq<Position>): (r: Option<Counts>)
    ensures r.Some? <==> Select(open, Short).Some? && Select(open, Long).Some?
    ensures r.Some? ==> r.value.shortCount <= |open| && r.value.longCount <= |open|
    ensures r.Some? ==> r.value.shortCount == |Hits(open, Short)|
    ensures r.Some? ==> r.value.longCount == |Hits(open, Long)|
  {
    SelectCount(open, Short);
    SelectCount(open, Long);
    match Select(open, Short)
    case None => None
    case Some(shorts) =>
      match Select(open, Long)
      case None => None
      case Some(longs) => Some(Counts(|shorts|, |longs|))
  }

  /** What main.py's `get_open_position_counts` returns besides the fetch. */
  datatype Tally = Tally(open: seq<Position>, counts: Counts)

  function OpenPositionCounts(positions: seq<Position>): (r: Option<Tally>)
    ensures r.Some? ==> r.value.open == OpenPositions(positions)
    ensures r.Some? ==> r.value.counts.shortCount <= |r.value.open|
    ensures r.Some? ==> r.value.counts.longCount <= |r.value.open|
    ensures r.Some? ==> r.value.counts.shortCount == |Hits(r.value.open, Short)|
    ensures r.Some? ==> r.value.counts.longCount == |Hits(r.value.open, Long)|
    ensures r.None? <==> CountSides(OpenPositions(positions)).None?
  {
    var open := OpenPositions(positions);
    match CountSides(open)
    case None => None
    case Some(counts) => Some(Tally(open, counts))
  }

  /** A record whose `side` field names a direction is in that direction's
      list whenever the list is built: the first clause alone decides. */
  lemma {:induction false} ExplicitSideCounted(open: seq<Position>, p: Position, d: Direction)
    requires p in open && p.side == Some(SideWord(d))
    ensures Select(open, d).Some? ==> p in Select(open, d).value
  {
    SelectKept(open, d);
  }

  /** A record whose `size` points in a direction is in that direction's list
      whenever the list is built: the second clause alone decides. */
  lemma SizeSignCounted(open: seq<Position>, p: Position, d: Direction)
    requires p in open && p.size.Value? && SizePoints(p.size.v, d)
    ensures Select(open, d).Some? ==> p in Select(open, d).value
  {
    SelectKept(open, d);
    MatchesValue(p, d);
  }

  /** A record whose raw `info.side` reads as the direction's word in any
      letter case is in that direction's list whenever the list is built. */
  lemma InfoSideCounted(open: seq<Position>, p: Position, d: Direction)
    requires p in open && p.infoSide.Value? && LowerAscii(p.infoSide.v) == InfoWord(d)
    ensures Select(open, d).Some? ==> p in Select(open, d).value
  {
    SelectKept(open, d);
    MatchesValue(p, d);
  }

  /** The upper-case form of an ASCII lower-case letter. */
  function UpperChar(c: char): char {
    if 'a' <= c <= 'z' then (c as int - 32) as char else c
  }

  /** The info-side clause ignores letter case: a raw side reads as 'sell'
      ('buy') exactly when it has that length and each letter is the word's
      letter or its upper-case form. */
  lemma {:induction false} InfoWordAnyCase(s: string, d: Direction)
    ensures LowerAscii(s) == InfoWord(d) <==>
      && |s| == |InfoWord(d)|
      && forall i :: 0 <= i < |s| ==>
           s[i] == InfoWord(d)[i] || s[i] == UpperChar(InfoWord(d)[i])
  {
    var w := InfoWord(d);
    if |s| == |w| {
      forall i | 0 <= i < |s|
        ensures LowerAscii(s)[i] == w[i] <==> s[i] == w[i] || s[i] == UpperChar(w[i])
      {
        assert 'a' <= w[i] <= 'z';
      }
      if LowerAscii(s) != w {
        var k :| 0 <= k < |s| && LowerAscii(s)[k] != w[k];
      }
    }
  }

  /** The two tests are independent disjunctions, not a priority order: a
      record reported long whose raw exchange side is 'Sell' is in both lists. */
  lemma CountedOnBothSides()
    ensures var p := Position("BTC/USDT:USDT", Some(1.0), Some("long"), Absent, Value("Sell"));
      OpenPositionCounts([p]) == Some(Tally([p], Counts(1, 1)))
  {
    var p := Position("BTC/USDT:USDT", Some(1.0), Some("long"), Absent, Value("Sell"));
    assert LowerAscii("Sell") == "sell";
    assert Matches(p, Short) == Some(true);
    assert Matches(p, Long) == Some(true);
    SingleRecord(p);
  }

  /** A record with none of the three fields set is in neither list, whatever
      the other records are. */
  lemma UnclassifiedCountsNeither(open: seq<Position>, p: Position, d: Direction)
    requires p in open && p.side.None? && p.size.Absent? && p.infoSide.Absent?
    ensures Select(open, d).Some? ==> p !in Select(open, d).value
  {
    SelectKept(open, d);
  }

  /** How the comprehensions treat a one-record list. */
  lemma SingleRecord(p: Position)
    ensures OpenPositions([p]) == if IsOpen(p) then [p] else []
    ensures Matches(p, Short).Some? ==>
      Select([p], Short) == Some(if Matches(p, Short).value then [p] else [])
    ensures Matches(p, Long).Some? ==>
      Select([p], Long) == Some(if Matches(p, Long).value then [p] else [])
  {
    assert [p][0] == p && [p][1..] == [];
    assert Select([], Short) == Some([]) && Select([], Long) == Some([]);
    assert [p] + [] == [p];
  }
}
