/**
 * `filterLogLevel`: selects diagnostics by severity. The array overload and
 * the single-record overload test the level differently: the array overload
 * asks whether the level is a number at all, the single-record overload
 * whether it is truthy, and the level numbered 0 (Warning) is a number but
 * not truthy.
 */
module LevelFilter {
  import opened Wrappers
  import opened Diagnostics

  /** The levels accepted when the caller passes none: all four. */
  const DefaultLogLevel: seq<Level> := [Warning, Error, Suggestion, Message]

  /** The `level` parameter after its default is applied. */
  function AcceptedLevels(levels: Option<seq<Level>>): seq<Level> {
    levels.GetOr(DefaultLogLevel)
  }

  /** The array overload's callback: a numeric level the list includes. */
  predicate Accepts(accepted: seq<Level>, d: Diagnostic) {
    d.level.Some? && d.level.value in accepted
  }

  /** `filterLogLevel(diagnostics[], level?)` */
  function FilterLogLevelMany(ds: seq<Diagnostic>, levels: Option<seq<Level>>): (r: seq<Diagnostic>)
    ensures |r| <= |ds|
    ensures forall d :: d in r <==> d in ds && Accepts(AcceptedLevels(levels), d)
    decreases |ds|
  {
    if |ds| == 0 then []
    else
      (if Accepts(AcceptedLevels(levels), ds[0]) then [ds[0]] else [])
      + FilterLogLevelMany(ds[1..], levels)
  }

  /** `filterLogLevel(diagnostic, level?)`: the record itself or null. It
      agrees with the array overload on a one-element array except for
      Warning records, which it always drops. */
  function FilterLogLevelOne(d: Diagnostic, levels: Option<seq<Level>>): (r: Option<Diagnostic>)
    ensures r == None || r == Some(d)
    ensures r == Some(d) <==> FilterLogLevelMany([d], levels) == [d] && d.level != Some(Warning)
  {
    if d.level.None? || !IsTruthyLevel(d.level.value) then None
    else if d.level.value in AcceptedLevels(levels) then Some(d)
    else None
  }

  /** `isNormalizedDiagnostic`: `Boolean(d)`; every record is truthy. */
  predicate IsNormalizedDiagnostic(d: Option<Diagnostic>)
    ensures IsNormalizedDiagnostic(d) <==> d != None
  {
    d.Some?
  }

  /** What a caller learns when the type guard accepts a single-record
      filter result: it is the record itself, with an accepted level. */
  lemma NarrowFilterResult(d: Diagnostic, levels: Option<seq<Level>>)
    ensures IsNormalizedDiagnostic(FilterLogLevelOne(d, levels)) <==>
            FilterLogLevelOne(d, levels) == Some(d)
    ensures IsNormalizedDiagnostic(FilterLogLevelOne(d, levels)) ==>
            Accepts(AcceptedLevels(levels), d)
  {
    if FilterLogLevelOne(d, levels).Some? {
      assert d in FilterLogLevelMany([d], levels);
    }
  }

  /** As written, a Warning record is dropped by the single-record overload
      even when Warning is accepted (by default it always is), while the
      array overload keeps it. */
  lemma SingleFilterDropsWarnings(d: Diagnostic, levels: Option<seq<Level>>)
    requires d.level == Some(Warning)
    requires Warning in AcceptedLevels(levels)
    ensures FilterLogLevelOne(d, levels) == None
    ensures FilterLogLevelMany([d], levels) == [d]
  {
    assert [d][1..] == [];
  }

  /** The single-record overload as its documentation describes it: the
      record when its level is present and accepted, otherwise null. */
  function FilterLogLevelOneByMembership(d: Diagnostic, levels: Option<seq<Level>>): (r: Option<Diagnostic>)
    ensures r == None || r == Some(d)
    ensures r == Some(d) <==> FilterLogLevelMany([d], levels) == [d]
  {
    if Accepts(AcceptedLevels(levels), d) then Some(d) else None
  }

  /** The array filter distributes over concatenation: each record is kept
      or dropped on its own, in place, so relative order is preserved. */
  lemma {:induction false} FilterAppend(a: seq<Diagnostic>, b: seq<Diagnostic>, levels: Option<seq<Level>>)
    ensures FilterLogLevelMany(a + b, levels) == FilterLogLevelMany(a, levels) + FilterLogLevelMany(b, levels)
    decreases |a|
  {
    if |a| == 0 {
      assert a + b == b;
    } else {
      assert (a + b)[0] == a[0] && (a + b)[1..] == a[1..] + b;
      FilterAppend(a[1..], b, levels);
    }
  }

  /** Filtering an already filtered array with the same levels changes nothing. */
  lemma {:induction false} FilterIdempotent(ds: seq<Diagnostic>, levels: Option<seq<Level>>)
    ensures FilterLogLevelMany(FilterLogLevelMany(ds, levels), levels) == FilterLogLevelMany(ds, levels)
    decreases |ds|
  {
    if |ds| > 0 {
      var head := if Accepts(AcceptedLevels(levels), ds[0]) then [ds[0]] else [];
      FilterIdempotent(ds[1..], levels);
      FilterAppend(head, FilterLogLevelMany(ds[1..], levels), levels);
      if head != [] {
        assert head[1..] == [];
      }
    }
  }

  /** `sub` can be obtained from `s` by deleting elements. */
  ghost predicate IsSubsequence(sub: seq<Diagnostic>, s: seq<Diagnostic>)
    decreases |s|
  {
    |sub| == 0 ||
    (|s| > 0 &&
     ((sub[0] == s[0] && IsSubsequence(sub[1..], s[1..])) || IsSubsequence(sub, s[1..])))
  }

  lemma {:induction false} FilterIsSubsequence(ds: seq<Diagnostic>, levels: Option<seq<Level>>)
    ensures IsSubsequence(FilterLogLevelMany(ds, levels), ds)
    decreases |ds|
  {
    if |ds| > 0 {
      FilterIsSubsequence(ds[1..], levels);
      var r := FilterLogLevelMany(ds, levels);
      if Accepts(AcceptedLevels(levels), ds[0]) {
        assert r[0] == ds[0] && r[1..] == FilterLogLevelMany(ds[1..], levels);
      } else {
        assert r == FilterLogLevelMany(ds[1..], levels);
        assert IsSubsequence(r, ds[1..]);
      }
    }
  }

  /** The filter returns its input unchanged exactly when every record in it
      has an accepted level. */
  lemma {:induction false} FilterKeepsAllIff(ds: seq<Diagnostic>, levels: Option<seq<Level>>)
    ensures FilterLogLevelMany(ds, levels) == ds <==>
            forall i :: 0 <= i < |ds| ==> Accepts(AcceptedLevels(levels), ds[i])
    decreases |ds|
  {
    if FilterLogLevelMany(ds, levels) == ds {
      forall i | 0 <= i < |ds| ensures Accepts(AcceptedLevels(levels), ds[i]) {
        assert ds[i] in FilterLogLevelMany(ds, levels);
      }
    }
    if |ds| > 0 && forall i :: 0 <= i < |ds| ==> Accepts(AcceptedLevels(levels), ds[i]) {
      FilterKeepsAllIff(ds[1..], levels);
      assert forall i :: 0 <= i < |ds[1..]| ==> Accepts(AcceptedLevels(levels), ds[1..][i]) by {
        forall i | 0 <= i < |ds[1..]| ensures Accepts(AcceptedLevels(levels), ds[1..][i]) {
          assert ds[1..][i] == ds[i + 1];
        }
      }
      assert ds == [ds[0]] + ds[1..];
    }
  }

  /** With no level list the filter keeps exactly the records that have a
      level, whatever it is. */
  lemma DefaultKeepsEveryLevelledRecord(ds: seq<Diagnostic>)
    ensures forall d :: d in FilterLogLevelMany(ds, None) <==> d in ds && d.level.Some?
    ensures (forall i :: 0 <= i < |ds| ==> ds[i].level.Some?) ==> FilterLogLevelMany(ds, None) == ds
  {
    forall l: Level ensures l in DefaultLogLevel {
      match l
      case Warning => assert DefaultLogLevel[0] == l;
      case Error => assert DefaultLogLevel[1] == l;
      case Suggestion => assert DefaultLogLevel[2] == l;
      case Message => assert DefaultLogLevel[3] == l;
    }
    FilterKeepsAllIff(ds, None);
  }
}
