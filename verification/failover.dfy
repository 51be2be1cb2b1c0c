/**
 The failover-with-promotion loop shared by every Lingva operation: try the
 current primary URL; on failure walk the fixed list of alternatives in
 order, skipping any entry equal to the primary as it stands at that moment;
 the first alternative that answers becomes the primary and serves the
 call; one error line is collected per failed attempt.

 The network is an oracle `attempt` giving one outcome per URL. A failed
 attempt may still promote its URL, because the source assigns the new
 primary before a check that can still fail; which failures do so is decided
 by the caller (see module Lingva).
 */
module EndpointFailover {
  import opened Base
  import opened Sequences

  type Url = string

  /** The outcome of one attempt against one URL. */
  datatype Attempt<+T> =
    | Served(value: T)
    | Failed(message: string, promote: bool)

  /** How a whole call ended: served (by the primary when `via` is None), or not at all. */
  datatype Outcome<+T> = Answered(value: T, via: Option<Url>) | AllFailed

  /**
   What one call did: the primary afterwards, the URLs attempted in
   order, the error lines collected, and the outcome.
   */
  datatype Run<+T> = Run(primary: Url, tried: seq<Url>, errors: seq<string>, outcome: Outcome<T>)

  function PrimaryError(message: string): (line: string)
  {
    "Primary API error: " + message
  }

  function AlternativeError(url: Url, message: string): (line: string)
  {
    "Alternative API " + url + " error: " + message
  }

  function MessageOf<T>(a: Attempt<T>): (message: string)
  {
    if a.Failed? then a.message else ""
  }

  predicate Promotes<T>(a: Attempt<T>)
  {
    a.Failed? && a.promote
  }

  /** The error lines for failed attempts against alternatives `urls`, in order. */
  function AlternativeErrors<T>(urls: seq<Url>, attempt: Url -> Attempt<T>): (lines: seq<string>)
    ensures |lines| == |urls|
    ensures forall i :: 0 <= i < |urls| ==> lines[i] == AlternativeError(urls[i], MessageOf(attempt(urls[i])))
    decreases |urls|
  {
    if urls == [] then []
    else [AlternativeError(urls[0], MessageOf(attempt(urls[0])))] + AlternativeErrors(urls[1..], attempt)
  }

  /** The error lines for a whole call whose failed attempts were `urls`, the primary first. */
  function ErrorLines<T>(urls: seq<Url>, attempt: Url -> Attempt<T>): (lines: seq<string>)
  {
    if urls == [] then []
    else [PrimaryError(MessageOf(attempt(urls[0])))] + AlternativeErrors(urls[1..], attempt)
  }

  /** The primary after the failed attempts `urls`: the last one that promoted itself, else `current`. */
  function PrimaryAfter<T>(urls: seq<Url>, current: Url, attempt: Url -> Attempt<T>): (primary: Url)
    decreases |urls|
  {
    if urls == [] then current
    else PrimaryAfter(urls[1..], if Promotes(attempt(urls[0])) then urls[0] else current, attempt)
  }

  /** The attempts of a run that failed: all of them, or all but the serving one. */
  function Failures<T>(r: Run<T>): (failed: seq<Url>)
  {
    if r.outcome.Answered? && |r.tried| > 0 then r.tried[..|r.tried| - 1] else r.tried
  }

  /**
   The walk over the alternatives, `current` being the primary so far.
   Every attempt but a serving last one failed, each failure left one
   error line tagged with its URL, the URLs attempted occur in the list in
   order, a serving alternative is the new primary, and after a total
   failure the primary is the last failed URL that promoted itself.
   */
  function Scan<T>(alternatives: seq<Url>, current: Url, attempt: Url -> Attempt<T>): (r: Run<T>)
    ensures ScanFacts(r, alternatives, current, attempt)
    decreases |alternatives|
  {
    if alternatives == [] then
      Run(current, [], [], AllFailed)
    else
      var alt := alternatives[0];
      if alt == current then
        var rest := Scan(alternatives[1..], current, attempt);
        ScanSkipStep(alternatives, current, attempt, rest);
        rest
      else
        match attempt(alt)
        case Served(v) =>
          ScanServedStep(alternatives, current, attempt);
          Run(alt, [alt], [], Answered(v, Some(alt)))
        case Failed(m, p) =>
          var rest := Scan(alternatives[1..], if p then alt else current, attempt);
          ScanFailedStep(alternatives, current, attempt, rest);
          Run(rest.primary, [alt] + rest.tried, [AlternativeError(alt, m)] + rest.errors, rest.outcome)
  }

  /** Scan's postcondition, as a predicate for the step lemma below. */
  ghost predicate ScanFacts<T>(r: Run<T>, alternatives: seq<Url>, current: Url, attempt: Url -> Attempt<T>)
  {
    && IsSubsequence(r.tried, alternatives)
    && (forall i :: 0 <= i < |Failures(r)| ==> attempt(Failures(r)[i]).Failed?)
    && r.errors == AlternativeErrors(Failures(r), attempt)
    && (r.outcome.Answered? ==>
          && |r.tried| > 0
          && r.primary == r.tried[|r.tried| - 1]
          && r.outcome.via == Some(r.primary)
          && attempt(r.primary) == Served(r.outcome.value))
    && (r.outcome.AllFailed? ==> r.primary == PrimaryAfter(r.tried, current, attempt))
  }

  /** A skipped alternative leaves the facts of the rest of the walk true of the whole list. */
  lemma ScanSkipStep<T>(alternatives: seq<Url>, current: Url, attempt: Url -> Attempt<T>, rest: Run<T>)
    requires alternatives != [] && alternatives[0] == current
    requires ScanFacts(rest, alternatives[1..], current, attempt)
    ensures ScanFacts(rest, alternatives, current, attempt)
  {
  }

  /** A serving first alternative ends the walk with a one-URL run. */
  lemma ScanServedStep<T>(alternatives: seq<Url>, current: Url, attempt: Url -> Attempt<T>)
    requires alternatives != [] && attempt(alternatives[0]).Served?
    ensures var alt := alternatives[0];
            ScanFacts(Run(alt, [alt], [], Answered(attempt(alt).value, Some(alt))), alternatives, current, attempt)
  {
    var alt := alternatives[0];
    EmptyIsSubsequence(alternatives[1..]);
    assert [alt][1..] == [];
  }

  /** A failed, non-skipped first alternative put in front of the walk over the rest keeps Scan's postcondition. */
  lemma ScanFailedStep<T>(alternatives: seq<Url>, current: Url, attempt: Url -> Attempt<T>, rest: Run<T>)
    requires alternatives != [] && alternatives[0] != current && attempt(alternatives[0]).Failed?
    requires ScanFacts(rest, alternatives[1..], if attempt(alternatives[0]).promote then alternatives[0] else current, attempt)
    ensures var alt := alternatives[0];
            ScanFacts(Run(rest.primary, [alt] + rest.tried, [AlternativeError(alt, attempt(alt).message)] + rest.errors, rest.outcome),
                      alternatives, current, attempt)
  {
    var alt := alternatives[0];
    var next := if attempt(alt).promote then alt else current;
    var r := Run(rest.primary, [alt] + rest.tried, [AlternativeError(alt, attempt(alt).message)] + rest.errors, rest.outcome);
    assert r.tried[1..] == rest.tried;
    assert Failures(r) == [alt] + Failures(rest);
    assert Failures(r)[1..] == Failures(rest);
    assert AlternativeErrors(Failures(r), attempt) == [AlternativeError(alt, attempt(alt).message)] + rest.errors;
    assert r.outcome.AllFailed? ==> PrimaryAfter(r.tried, current, attempt) == PrimaryAfter(rest.tried, next, attempt);
    assert IsSubsequence(r.tried, alternatives) by {
      assert r.tried != [] && r.tried[0] == alternatives[0];
    }
  }

  /**
   One call: the primary first, then the alternatives. A serving primary
   stays primary, no alternative is tried and no error is recorded; the
   error lines are one per failed attempt, the primary's first.
   */
  function Failover<T>(primary: Url, alternatives: seq<Url>, attempt: Url -> Attempt<T>): (r: Run<T>)
    ensures |r.tried| >= 1 && r.tried[0] == primary
    ensures attempt(primary).Served? ==> r == Run(primary, [primary], [], Answered(attempt(primary).value, None))
    ensures attempt(primary).Failed? ==> IsSubsequence(r.tried[1..], alternatives)
    ensures forall i :: 0 <= i < |Failures(r)| ==> attempt(Failures(r)[i]).Failed?
    ensures r.errors == ErrorLines(Failures(r), attempt)
    ensures r.outcome.Answered? ==>
              && r.primary == r.tried[|r.tried| - 1]
              && attempt(r.primary) == Served(r.outcome.value)
              && (r.outcome.via.None? <==> r.tried == [primary])
              && (r.outcome.via.Some? ==> r.outcome.via.value == r.primary)
    ensures r.outcome.AllFailed? ==> r.primary == PrimaryAfter(r.tried, primary, attempt)
  {
    match attempt(primary)
    case Served(v) => Run(primary, [primary], [], Answered(v, None))
    case Failed(m, _) =>
      var s := Scan(alternatives, primary, attempt);
      var r := Run(s.primary, [primary] + s.tried, [PrimaryError(m)] + s.errors, s.outcome);
      assert r.tried[1..] == s.tried;
      assert Failures(r) == [primary] + Failures(s);
      assert Failures(r)[1..] == Failures(s);
      r
  }

  /**
   The same loop written as the source writes it: a `for` over the
   alternatives with `continue` on the current primary, an early return on
   success, and the primary reassigned in the middle of the walk. It
   computes exactly what Failover does.
   */
  method FailoverLoop<T>(primary: Url, alternatives: seq<Url>, attempt: Url -> Attempt<T>)
    returns (newPrimary: Url, outcome: Outcome<T>, errors: seq<string>)
    ensures newPrimary == Failover(primary, alternatives, attempt).primary
    ensures outcome == Failover(primary, alternatives, attempt).outcome
    ensures errors == Failover(primary, alternatives, attempt).errors
  {
    var first := attempt(primary);
    if first.Served? {
      return primary, Answered(first.value, None), [];
    }
    WalkIsScan(alternatives, primary, attempt, [PrimaryError(first.message)]);
    errors := [PrimaryError(first.message)];
    var current := primary;
    var i := 0;
    assert alternatives[i..] == alternatives;
    while i < |alternatives|
      invariant 0 <= i <= |alternatives|
      invariant Walk(alternatives[i..], current, attempt, errors) == Walk(alternatives, primary, attempt, [PrimaryError(first.message)])
    {
      var alt := alternatives[i];
      assert alternatives[i..][0] == alt;
      assert alternatives[i..][1..] == alternatives[i + 1..];
      if alt == current {
        i := i + 1;
        continue;
      }
      var a := attempt(alt);
      if a.Served? {
        return alt, Answered(a.value, Some(alt)), errors;
      }
      errors := errors + [AlternativeError(alt, a.message)];
      if a.promote {
        current := alt;
      }
      i := i + 1;
    }
    return current, AllFailed, errors;
  }

  /**
   The walk's final primary, outcome and error lines, the lines collected
   so far being `collected`: the loop's state as one value, for its
   invariant.
   */
  ghost function Walk<T>(alternatives: seq<Url>, current: Url, attempt: Url -> Attempt<T>, collected: seq<string>)
    : (w: (Url, Outcome<T>, seq<string>))
    decreases |alternatives|
  {
    if alternatives == [] then (current, AllFailed, collected)
    else
      var alt := alternatives[0];
      if alt == current then Walk(alternatives[1..], current, attempt, collected)
      else match attempt(alt)
        case Served(v) => (alt, Answered(v, Some(alt)), collected)
        case Failed(m, p) => Walk(alternatives[1..], if p then alt else current, attempt, collected + [AlternativeError(alt, m)])
  }

  lemma {:induction false} WalkIsScan<T>(alternatives: seq<Url>, current: Url, attempt: Url -> Attempt<T>, collected: seq<string>)
    ensures var r := Scan(alternatives, current, attempt);
            Walk(alternatives, current, attempt, collected) == (r.primary, r.outcome, collected + r.errors)
    decreases |alternatives|
  {
    assert collected + [] == collected;
    if alternatives != [] {
      var alt := alternatives[0];
      ScanStep(alternatives, current, attempt);
      if alt == current {
        WalkIsScan(alternatives[1..], current, attempt, collected);
      } else if attempt(alt).Failed? {
        var line := AlternativeError(alt, attempt(alt).message);
        var next := if attempt(alt).promote then alt else current;
        WalkIsScan(alternatives[1..], next, attempt, collected + [line]);
        WalkFailedStep(alternatives, current, attempt, collected, Scan(alternatives[1..], next, attempt),
                       Scan(alternatives, current, attempt));
      }
    }
  }

  /** The failed-alternative case of WalkIsScan, stated over the two runs without unfolding Scan. */
  lemma WalkFailedStep<T>(alternatives: seq<Url>, current: Url, attempt: Url -> Attempt<T>, collected: seq<string>,
                          rest: Run<T>, whole: Run<T>)
    requires alternatives != [] && alternatives[0] != current && attempt(alternatives[0]).Failed?
    requires var alt := alternatives[0];
             var line := AlternativeError(alt, attempt(alt).message);
             && whole.primary == rest.primary && whole.outcome == rest.outcome && whole.errors == [line] + rest.errors
             && Walk(alternatives[1..], if attempt(alt).promote then alt else current, attempt, collected + [line])
                == (rest.primary, rest.outcome, (collected + [line]) + rest.errors)
    ensures Walk(alternatives, current, attempt, collected) == (whole.primary, whole.outcome, collected + whole.errors)
  {
    var line := AlternativeError(alternatives[0], attempt(alternatives[0]).message);
    assert (collected + [line]) + rest.errors == collected + ([line] + rest.errors);
  }

  /** One step of the walk, as the loop above takes it. */
  lemma ScanStep<T>(alternatives: seq<Url>, current: Url, attempt: Url -> Attempt<T>)
    requires alternatives != []
    ensures var alt, tail := alternatives[0], alternatives[1..];
            && (alt == current ==> Scan(alternatives, current, attempt) == Scan(tail, current, attempt))
            && (alt != current && attempt(alt).Served? ==>
                  Scan(alternatives, current, attempt) == Run(alt, [alt], [], Answered(attempt(alt).value, Some(alt))))
            && (alt != current && attempt(alt).Failed? ==>
                  var rest := Scan(tail, if attempt(alt).promote then alt else current, attempt);
                  && Scan(alternatives, current, attempt).tried == [alt] + rest.tried
                  && Scan(alternatives, current, attempt).primary == rest.primary
                  && Scan(alternatives, current, attempt).outcome == rest.outcome
                  && Scan(alternatives, current, attempt).errors == [AlternativeError(alt, attempt(alt).message)] + rest.errors)
  {
  }

  /** `k` is the first alternative, in list order, whose attempt serves. */
  predicate FirstAnswering<T>(alternatives: seq<Url>, attempt: Url -> Attempt<T>, k: int)
  {
    && 0 <= k < |alternatives|
    && attempt(alternatives[k]).Served?
    && forall j :: 0 <= j < k ==> attempt(alternatives[j]).Failed?
  }

  /** Past a failing first alternative, "some alternative serves" and "the k-th answers first" move to the tail. */
  lemma FailedHeadShift<T>(alternatives: seq<Url>, attempt: Url -> Attempt<T>)
    requires |alternatives| > 0 && attempt(alternatives[0]).Failed?
    ensures (exists k :: 0 <= k < |alternatives| && attempt(alternatives[k]).Served?) <==>
            (exists k :: 0 <= k < |alternatives[1..]| && attempt(alternatives[1..][k]).Served?)
    ensures forall k :: FirstAnswering(alternatives, attempt, k) ==> k > 0 && FirstAnswering(alternatives[1..], attempt, k - 1)
  {
    var tail := alternatives[1..];
    if exists k :: 0 <= k < |alternatives| && attempt(alternatives[k]).Served? {
      var k :| 0 <= k < |alternatives| && attempt(alternatives[k]).Served?;
      assert attempt(tail[k - 1]).Served?;
    }
    if exists k :: 0 <= k < |tail| && attempt(tail[k]).Served? {
      var k :| 0 <= k < |tail| && attempt(tail[k]).Served?;
      assert attempt(alternatives[k + 1]).Served?;
    }
    forall k | FirstAnswering(alternatives, attempt, k)
      ensures k > 0 && FirstAnswering(tail, attempt, k - 1)
    {
      forall j | 0 <= j < k - 1
        ensures attempt(tail[j]).Failed?
      {
        assert tail[j] == alternatives[j + 1];
      }
    }
  }

  /**
   While the current primary fails, the walk is served exactly when some
   alternative answers, and then by the first one in list order. A skipped
   entry equals the current primary, which has failed, so skipping it never
   passes over an answering URL.
   */
  lemma {:induction false} ScanFirstAnswer<T>(alternatives: seq<Url>, current: Url, attempt: Url -> Attempt<T>)
    requires attempt(current).Failed?
    ensures Scan(alternatives, current, attempt).outcome.Answered? <==>
              exists k :: 0 <= k < |alternatives| && attempt(alternatives[k]).Served?
    ensures forall k :: FirstAnswering(alternatives, attempt, k) ==>
              && Scan(alternatives, current, attempt).outcome == Answered(attempt(alternatives[k]).value, Some(alternatives[k]))
              && Scan(alternatives, current, attempt).primary == alternatives[k]
    decreases |alternatives|
  {
    if alternatives != [] {
      var alt, tail := alternatives[0], alternatives[1..];
      var next := if Promotes(attempt(alt)) then alt else current;
      var r := Scan(alternatives, current, attempt);
      ScanStep(alternatives, current, attempt);
      if attempt(alt).Served? {
        assert attempt(alternatives[0]).Served?;
      } else {
        var c := if alt == current then current else next;
        assert attempt(c).Failed?;
        assert r.outcome == Scan(tail, c, attempt).outcome && r.primary == Scan(tail, c, attempt).primary;
        ScanFirstAnswer(tail, c, attempt);
        FailedHeadShift(alternatives, attempt);
      }
    }
  }

  /**
   A whole call is served exactly when the primary or some alternative
   answers. A failing primary hands the call to the first answering
   alternative in list order, which becomes the new primary.
   */
  lemma FailoverFirstAnswer<T>(primary: Url, alternatives: seq<Url>, attempt: Url -> Attempt<T>)
    ensures Failover(primary, alternatives, attempt).outcome.Answered? <==>
              attempt(primary).Served? || exists k :: 0 <= k < |alternatives| && attempt(alternatives[k]).Served?
    ensures attempt(primary).Failed? ==>
              forall k :: FirstAnswering(alternatives, attempt, k) ==>
                && Failover(primary, alternatives, attempt).outcome == Answered(attempt(alternatives[k]).value, Some(alternatives[k]))
                && Failover(primary, alternatives, attempt).primary == alternatives[k]
  {
    if attempt(primary).Failed? {
      ScanFirstAnswer(alternatives, primary, attempt);
    }
  }

  /** The alternatives up to and including the first that serves, or all of them. */
  function UpToFirstServed<T>(alternatives: seq<Url>, attempt: Url -> Attempt<T>): (reach: seq<Url>)
    ensures |reach| <= |alternatives|
    decreases |alternatives|
  {
    if alternatives == [] then []
    else if attempt(alternatives[0]).Served? then [alternatives[0]]
    else [alternatives[0]] + UpToFirstServed(alternatives[1..], attempt)
  }

  /**
   When no failure promotes, the primary never moves during the walk: the
   attempted URLs are the alternatives up to the first that serves, minus
   every entry equal to the primary (other duplicates are attempted again),
   and a total failure leaves the primary as it was.
   */
  lemma {:induction false} ScanWithoutPromotion<T>(alternatives: seq<Url>, current: Url, attempt: Url -> Attempt<T>)
    requires attempt(current).Failed?
    requires forall i :: 0 <= i < |alternatives| ==> !Promotes(attempt(alternatives[i]))
    ensures Scan(alternatives, current, attempt).tried == Without(UpToFirstServed(alternatives, attempt), current)
    ensures Scan(alternatives, current, attempt).outcome.AllFailed? ==> Scan(alternatives, current, attempt).primary == current
    decreases |alternatives|
  {
    if alternatives != [] {
      var alt, tail := alternatives[0], alternatives[1..];
      forall i | 0 <= i < |tail|
        ensures !Promotes(attempt(tail[i]))
      {
        assert tail[i] == alternatives[i + 1];
      }
      assert !Promotes(attempt(alternatives[0]));
      ScanStep(alternatives, current, attempt);
      WithoutCons(alt, UpToFirstServed(tail, attempt), current);
      if attempt(alt).Failed? {
        ScanWithoutPromotion(tail, current, attempt);
        assert UpToFirstServed(alternatives, attempt) == [alt] + UpToFirstServed(tail, attempt);
      } else {
        WithoutCons(alt, [], current);
        assert [alt] + [] == [alt];
      }
    }
  }

  /** A call in which no failure promotes moves the primary only to an alternative that serves. */
  lemma FailoverWithoutPromotion<T>(primary: Url, alternatives: seq<Url>, attempt: Url -> Attempt<T>)
    requires forall i :: 0 <= i < |alternatives| ==> !Promotes(attempt(alternatives[i]))
    ensures var r := Failover(primary, alternatives, attempt);
            && (r.outcome.AllFailed? ==> r.primary == primary && r.tried == [primary] + Without(alternatives, primary))
            && (r.outcome.Answered? && r.outcome.via.None? ==> r.primary == primary)
            && (r.outcome.Answered? && r.outcome.via.Some? ==> r.primary == r.outcome.via.value)
  {
    var r := Failover(primary, alternatives, attempt);
    if attempt(primary).Failed? {
      ScanWithoutPromotion(alternatives, primary, attempt);
      if r.outcome.AllFailed? {
        ScanFirstAnswer(alternatives, primary, attempt);
        AllFailUpToFirstServed(alternatives, attempt);
      }
    }
  }

  lemma {:induction false} AllFailUpToFirstServed<T>(alternatives: seq<Url>, attempt: Url -> Attempt<T>)
    requires forall i :: 0 <= i < |alternatives| ==> attempt(alternatives[i]).Failed?
    ensures UpToFirstServed(alternatives, attempt) == alternatives
    decreases |alternatives|
  {
    if alternatives != [] {
      var tail := alternatives[1..];
      forall i | 0 <= i < |tail|
        ensures attempt(tail[i]).Failed?
      {
        assert tail[i] == alternatives[i + 1];
      }
      assert attempt(alternatives[0]).Failed?;
      AllFailUpToFirstServed(tail, attempt);
    }
  }

  /**
   No alternative is ever attempted while it is the current primary: each
   URL attempted differs from the primary left by the attempts before it.
   */
  predicate NeverTriesCurrent<T>(tried: seq<Url>, current: Url, attempt: Url -> Attempt<T>)
  {
    forall i :: 0 <= i < |tried| ==> tried[i] != PrimaryAfter(tried[..i], current, attempt)
  }

  lemma {:induction false} ScanNeverTriesCurrent<T>(alternatives: seq<Url>, current: Url, attempt: Url -> Attempt<T>)
    ensures NeverTriesCurrent(Scan(alternatives, current, attempt).tried, current, attempt)
    decreases |alternatives|
  {
    var tried := Scan(alternatives, current, attempt).tried;
    if alternatives == [] {
      assert tried == [];
    } else {
      var alt, tail := alternatives[0], alternatives[1..];
      if alt == current {
        ScanNeverTriesCurrent(tail, current, attempt);
        assert tried == Scan(tail, current, attempt).tried;
      } else if attempt(alt).Served? {
        assert tried == [alt];
        assert tried[..0] == [];
      } else {
        var next := if Promotes(attempt(alt)) then alt else current;
        ScanNeverTriesCurrent(tail, next, attempt);
        var rest := Scan(tail, next, attempt).tried;
        assert tried == [alt] + rest;
        NeverTriesCurrentCons(alt, rest, current, attempt);
      }
    }
  }

  /**
   The skip rule read position by position: among the first n entries, the
   j-th is attempted exactly when it differs from the primary that the
   failures of the entries before it have left, every promoting failure
   counted, skipped entries included.
   */
  function Attempted<T>(alternatives: seq<Url>, current: Url, attempt: Url -> Attempt<T>, n: nat): (urls: seq<Url>)
    requires n <= |alternatives|
    decreases n
  {
    if n == 0 then []
    else
      var j := n - 1;
      Attempted(alternatives, current, attempt, j)
      + (if alternatives[j] != PrimaryAfter(alternatives[..j], current, attempt) then [alternatives[j]] else [])
  }

  /** Attempted, read from the front: the first entry, then the rest from the primary it leaves. */
  lemma {:induction false} AttemptedCons<T>(alternatives: seq<Url>, current: Url, attempt: Url -> Attempt<T>, n: nat)
    requires 1 <= n <= |alternatives|
    ensures var alt := alternatives[0];
            Attempted(alternatives, current, attempt, n)
            == (if alt != current then [alt] else [])
               + Attempted(alternatives[1..], if Promotes(attempt(alt)) then alt else current, attempt, n - 1)
    decreases n
  {
    var alt, tail := alternatives[0], alternatives[1..];
    var next := if Promotes(attempt(alt)) then alt else current;
    var head := if alt != current then [alt] else [];
    assert alternatives[..0] == [];
    if n == 1 {
      assert Attempted(alternatives, current, attempt, 1) == [] + head;
      assert head + [] == head;
    } else {
      var j := n - 1;
      AttemptedCons(alternatives, current, attempt, j);
      assert alternatives[..j][1..] == tail[..j - 1];
      assert alternatives[..j] == [alt] + tail[..j - 1];
      PrimaryAfterCons(alt, tail[..j - 1], current, attempt);
      assert alternatives[j] == tail[j - 1];
      var x := if tail[j - 1] != PrimaryAfter(tail[..j - 1], next, attempt) then [tail[j - 1]] else [];
      assert Attempted(tail, next, attempt, j) == Attempted(tail, next, attempt, j - 1) + x;
      assert Attempted(alternatives, current, attempt, n) == (head + Attempted(tail, next, attempt, j - 1)) + x;
    }
  }

  /**
   While the current primary fails, the walk attempts exactly the entries
   Attempted names, up to the first that serves: every entry that differs
   from the primary of that moment is attempted, duplicates included, and
   no other.
   */
  lemma {:induction false} ScanAttempts<T>(alternatives: seq<Url>, current: Url, attempt: Url -> Attempt<T>)
    requires attempt(current).Failed?
    ensures Scan(alternatives, current, attempt).tried
            == Attempted(alternatives, current, attempt, |UpToFirstServed(alternatives, attempt)|)
    decreases |alternatives|
  {
    if alternatives != [] {
      var alt, tail := alternatives[0], alternatives[1..];
      ScanStep(alternatives, current, attempt);
      if attempt(alt).Served? {
        AttemptedServedStep(alternatives, current, attempt);
      } else {
        var next := if Promotes(attempt(alt)) then alt else current;
        assert attempt(next).Failed?;
        ScanAttempts(tail, next, attempt);
        var rest := Scan(tail, next, attempt).tried;
        assert Scan(alternatives, current, attempt).tried == (if alt != current then [alt] else []) + rest;
        AttemptedFailedStep(alternatives, current, attempt, rest);
      }
    }
  }

  lemma AttemptedServedStep<T>(alternatives: seq<Url>, current: Url, attempt: Url -> Attempt<T>)
    requires alternatives != [] && attempt(alternatives[0]).Served? && attempt(current).Failed?
    ensures Attempted(alternatives, current, attempt, |UpToFirstServed(alternatives, attempt)|) == [alternatives[0]]
  {
    assert UpToFirstServed(alternatives, attempt) == [alternatives[0]];
    AttemptedCons(alternatives, current, attempt, 1);
    assert [alternatives[0]] + [] == [alternatives[0]];
  }

  lemma AttemptedFailedStep<T>(alternatives: seq<Url>, current: Url, attempt: Url -> Attempt<T>, rest: seq<Url>)
    requires alternatives != [] && attempt(alternatives[0]).Failed? && attempt(current).Failed?
    requires var alt := alternatives[0];
             rest == Attempted(alternatives[1..], if Promotes(attempt(alt)) then alt else current, attempt,
                               |UpToFirstServed(alternatives[1..], attempt)|)
    ensures var alt := alternatives[0];
            Attempted(alternatives, current, attempt, |UpToFirstServed(alternatives, attempt)|)
            == (if alt != current then [alt] else []) + rest
  {
    var alt, tail := alternatives[0], alternatives[1..];
    assert UpToFirstServed(alternatives, attempt) == [alt] + UpToFirstServed(tail, attempt);
    AttemptedCons(alternatives, current, attempt, |UpToFirstServed(tail, attempt)| + 1);
  }

  /**
   A call whose primary fails attempts the primary and then exactly the
   alternatives Attempted names; when everything fails, that is the whole
   list read through the skip rule.
   */
  lemma FailoverAttempts<T>(primary: Url, alternatives: seq<Url>, attempt: Url -> Attempt<T>)
    requires attempt(primary).Failed?
    ensures Failover(primary, alternatives, attempt).tried
            == [primary] + Attempted(alternatives, primary, attempt, |UpToFirstServed(alternatives, attempt)|)
    ensures (forall i :: 0 <= i < |alternatives| ==> attempt(alternatives[i]).Failed?) ==>
              Failover(primary, alternatives, attempt).tried == [primary] + Attempted(alternatives, primary, attempt, |alternatives|)
  {
    ScanAttempts(alternatives, primary, attempt);
    if forall i :: 0 <= i < |alternatives| ==> attempt(alternatives[i]).Failed? {
      AllFailUpToFirstServed(alternatives, attempt);
    }
  }

  lemma NeverTriesCurrentCons<T>(url: Url, rest: seq<Url>, current: Url, attempt: Url -> Attempt<T>)
    requires url != current
    requires NeverTriesCurrent(rest, if Promotes(attempt(url)) then url else current, attempt)
    ensures NeverTriesCurrent([url] + rest, current, attempt)
  {
    var next := if Promotes(attempt(url)) then url else current;
    var tried := [url] + rest;
    forall i | 0 <= i < |tried|
      ensures tried[i] != PrimaryAfter(tried[..i], current, attempt)
    {
      if i == 0 {
        assert tried[..0] == [];
      } else {
        assert tried[..i] == [url] + rest[..i - 1];
        PrimaryAfterCons(url, rest[..i - 1], current, attempt);
        assert rest[i - 1] != PrimaryAfter(rest[..i - 1], next, attempt);
        assert tried[i] == rest[i - 1];
      }
    }
  }

  lemma PrimaryAfterCons<T>(url: Url, urls: seq<Url>, current: Url, attempt: Url -> Attempt<T>)
    ensures PrimaryAfter([url] + urls, current, attempt)
            == PrimaryAfter(urls, if Promotes(attempt(url)) then url else current, attempt)
  {
    assert ([url] + urls)[1..] == urls;
  }

  /** After a call served by an alternative, the next call tries that URL first and stops there if it answers. */
  lemma PromotedServesNextCall<T>(primary: Url, alternatives: seq<Url>, attempt: Url -> Attempt<T>, later: Url -> Attempt<T>)
    requires Failover(primary, alternatives, attempt).outcome.Answered?
    requires later(Failover(primary, alternatives, attempt).primary).Served?
    ensures var promoted := Failover(primary, alternatives, attempt).primary;
            && Failover(promoted, alternatives, later).tried == [promoted]
            && Failover(promoted, alternatives, later).primary == promoted
            && attempt(promoted).Served?
  {
  }

  /**
   A failed attempt that promotes is not undone by the failures after it:
   when every URL fails and the k-th alternative is the last one whose
   failure promotes, the call fails and leaves that alternative as primary
   (it was either promoted at its turn, or skipped because it already was
   the primary).
   */
  lemma {:induction false} ScanKeepsLastPromoter<T>(alternatives: seq<Url>, current: Url, attempt: Url -> Attempt<T>, k: int)
    requires attempt(current).Failed?
    requires forall i :: 0 <= i < |alternatives| ==> attempt(alternatives[i]).Failed?
    requires 0 <= k < |alternatives| && Promotes(attempt(alternatives[k]))
    requires forall i :: k < i < |alternatives| ==> !Promotes(attempt(alternatives[i]))
    ensures Scan(alternatives, current, attempt).outcome.AllFailed?
    ensures Scan(alternatives, current, attempt).primary == alternatives[k]
    decreases |alternatives|
  {
    var alt, tail := alternatives[0], alternatives[1..];
    var c := if alt == current then current else if Promotes(attempt(alt)) then alt else current;
    assert attempt(alternatives[0]).Failed?;
    assert Scan(alternatives, current, attempt).primary == Scan(tail, c, attempt).primary;
    assert Scan(alternatives, current, attempt).outcome == Scan(tail, c, attempt).outcome;
    forall i | 0 <= i < |tail|
      ensures attempt(tail[i]).Failed?
    {
      assert tail[i] == alternatives[i + 1];
    }
    if k == 0 {
      forall i | 0 <= i < |tail|
        ensures !Promotes(attempt(tail[i]))
      {
        assert tail[i] == alternatives[i + 1];
      }
      assert c == alt;
      ScanWithoutPromotion(tail, alt, attempt);
      ScanFirstAnswer(tail, alt, attempt);
    } else {
      forall i | k - 1 < i < |tail|
        ensures !Promotes(attempt(tail[i]))
      {
        assert tail[i] == alternatives[i + 1];
      }
      assert tail[k - 1] == alternatives[k];
      assert attempt(c).Failed?;
      ScanKeepsLastPromoter(tail, c, attempt, k - 1);
    }
  }

  /** The same for a whole call whose primary fails too. */
  lemma FailoverKeepsLastPromoter<T>(primary: Url, alternatives: seq<Url>, attempt: Url -> Attempt<T>, k: int)
    requires attempt(primary).Failed?
    requires forall i :: 0 <= i < |alternatives| ==> attempt(alternatives[i]).Failed?
    requires 0 <= k < |alternatives| && Promotes(attempt(alternatives[k]))
    requires forall i :: k < i < |alternatives| ==> !Promotes(attempt(alternatives[i]))
    ensures Failover(primary, alternatives, attempt).outcome.AllFailed?
    ensures Failover(primary, alternatives, attempt).primary == alternatives[k]
  {
    ScanKeepsLastPromoter(alternatives, primary, attempt, k);
  }

  /** The primary after a run of failures is the one it started from or a URL of the run whose failure promoted. */
  lemma {:induction false} PrimaryAfterIsPromoter<T>(urls: seq<Url>, current: Url, attempt: Url -> Attempt<T>)
    ensures var p := PrimaryAfter(urls, current, attempt);
            p == current || (p in urls && Promotes(attempt(p)))
    decreases |urls|
  {
    if urls != [] {
      var next := if Promotes(attempt(urls[0])) then urls[0] else current;
      PrimaryAfterIsPromoter(urls[1..], next, attempt);
      assert urls == [urls[0]] + urls[1..];
    }
  }

  /**
   A call never invents an endpoint: it ends with the primary it started
   from or one of the alternatives, and a call that fails throughout moves
   the primary only to an alternative whose failure promotes.
   */
  lemma FailoverEndsOnKnownEndpoint<T>(primary: Url, alternatives: seq<Url>, attempt: Url -> Attempt<T>)
    ensures var r := Failover(primary, alternatives, attempt);
            && (r.primary == primary || r.primary in alternatives)
            && (r.outcome.AllFailed? && r.primary != primary ==> r.primary in alternatives && Promotes(attempt(r.primary)))
  {
    var r := Failover(primary, alternatives, attempt);
    if attempt(primary).Failed? {
      var rest := r.tried[1..];
      SubsequenceMembers(rest, alternatives);
      assert r.tried == [primary] + rest;
      if r.outcome.Answered? && r.primary != primary {
        assert |r.tried| >= 2;
        assert r.primary == rest[|rest| - 1];
      }
      if r.outcome.AllFailed? {
        PrimaryAfterCons(primary, rest, primary, attempt);
        PrimaryAfterIsPromoter(rest, primary, attempt);
      }
    }
  }
}
