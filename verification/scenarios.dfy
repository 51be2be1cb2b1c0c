/**
 Concrete runs that show where the two copies of the failover loop part
 ways. The primary p is down; of the alternatives [a, b, a], a answers 2xx
 JSON without a `translation` key and b is down. The three URLs are any
 distinct ones.
 */
module Scenarios {
  import opened Base
  import opened Strings
  import opened EndpointFailover
  import opened Lingva
  import Service
  import TranslateServer

  /** The network of the scenario: a answers without a key, every other URL is down. */
  function Network(a: Url): Url -> TranslateOutcome
  {
    u => if u == a then NoTranslationField else TransportError("down")
  }

  predicate Distinct(p: Url, a: Url, b: Url)
  {
    p != a && a != b && b != p
  }

  /** What each endpoint of the scenario comes to as a failover attempt. */
  lemma NetworkAttempts(p: Url, a: Url, b: Url, point: PromotionPoint)
    requires Distinct(p, a, b)
    ensures var attempt := TranslateAttempts(Network(a), point);
            && attempt(p) == Failed("down", false)
            && attempt(a) == Failed(MissingFieldMessage, point == BeforeFieldRead)
            && attempt(b) == Failed("down", false)
  {
    var attempt := TranslateAttempts(Network(a), point);
    assert attempt(a) == TranslateAttempt(Network(a)(a), point);
    assert attempt(b) == TranslateAttempt(Network(a)(b), point);
    assert attempt(p) == TranslateAttempt(Network(a)(p), point);
  }

  /**
   The service walk: a fails and is promoted, b fails, and the second a is
   skipped because it is now the primary; two alternative lines.
   */
  lemma ServiceRun(p: Url, a: Url, b: Url)
    requires Distinct(p, a, b)
    ensures var r := Failover(p, [a, b, a], TranslateAttempts(Network(a), BeforeFieldRead));
            && r.primary == a && r.outcome == AllFailed
            && r.errors == [PrimaryError("down"), AlternativeError(a, MissingFieldMessage), AlternativeError(b, "down")]
  {
    var attempt := TranslateAttempts(Network(a), BeforeFieldRead);
    NetworkAttempts(p, a, b, BeforeFieldRead);
    assert [a, b, a][1..] == [b, a] && [b, a][1..] == [a] && [a][1..] == [];
    var e0, e1, e2 := PrimaryError("down"), AlternativeError(a, MissingFieldMessage), AlternativeError(b, "down");
    assert [e0] + [e1] == [e0, e1] && [e0, e1] + [e2] == [e0, e1, e2];
    assert Walk([a], a, attempt, [e0, e1, e2]) == (a, AllFailed, [e0, e1, e2]);
    assert Walk([b, a], a, attempt, [e0, e1]) == (a, AllFailed, [e0, e1, e2]);
    assert Walk([a, b, a], p, attempt, [e0]) == (a, AllFailed, [e0, e1, e2]);
    WalkIsScan([a, b, a], p, attempt, [e0]);
  }

  /** The server walk: nothing is promoted, so every alternative is tried against p, the second a included. */
  lemma ServerRun(p: Url, a: Url, b: Url)
    requires Distinct(p, a, b)
    ensures var r := Failover(p, [a, b, a], TranslateAttempts(Network(a), AfterResultBuilt));
            && r.primary == p && r.outcome == AllFailed
            && r.errors == [PrimaryError("down"), AlternativeError(a, MissingFieldMessage), AlternativeError(b, "down"),
                            AlternativeError(a, MissingFieldMessage)]
  {
    var attempt := TranslateAttempts(Network(a), AfterResultBuilt);
    NetworkAttempts(p, a, b, AfterResultBuilt);
    assert [a, b, a][1..] == [b, a] && [b, a][1..] == [a] && [a][1..] == [];
    var e0, e1, e2 := PrimaryError("down"), AlternativeError(a, MissingFieldMessage), AlternativeError(b, "down");
    assert [e0] + [e1] == [e0, e1] && [e0, e1] + [e2] == [e0, e1, e2] && [e0, e1, e2] + [e1] == [e0, e1, e2, e1];
    assert Walk([a], p, attempt, [e0, e1, e2]) == (p, AllFailed, [e0, e1, e2, e1]);
    assert Walk([b, a], p, attempt, [e0, e1]) == (p, AllFailed, [e0, e1, e2, e1]);
    assert Walk([a, b, a], p, attempt, [e0]) == (p, AllFailed, [e0, e1, e2, e1]);
    WalkIsScan([a, b, a], p, attempt, [e0]);
  }

  /**
   The service copy promotes a before reading the key, so a is primary
   when the loop reaches the second a, which is skipped: three error
   lines, and a stays primary after the call has raised.
   */
  lemma ServiceSkipsPromotedDuplicate(p: Url, a: Url, b: Url, text: string, timestamp: string)
    requires Distinct(p, a, b)
    ensures var r := Service.ServiceTranslate(Service.Config(p, [a, b, a]), text, "auto", "en", timestamp, Network(a));
            && r.primary == a
            && r.result == Err(RuntimeError(FailurePrefix + Join([PrimaryError("down"),
                                                                  AlternativeError(a, MissingFieldMessage),
                                                                  AlternativeError(b, "down")], "\n")))
  {
    ServiceRun(p, a, b);
  }

  /**
   The server copy never promotes on a failure, so both copies of a are
   tried against the unchanged primary: four error lines, and p is still
   primary.
   */
  lemma ServerRetriesDuplicate(p: Url, a: Url, b: Url, text: string, timestamp: string)
    requires Distinct(p, a, b)
    ensures var r := TranslateServer.TranslateText(TranslateServer.Globals(p, [a, b, a]), text, "auto", "en",
                                                   timestamp, Network(a));
            && r.primary == p
            && r.result == Err(RuntimeError(FailurePrefix + Join([PrimaryError("down"),
                                                                  AlternativeError(a, MissingFieldMessage),
                                                                  AlternativeError(b, "down"),
                                                                  AlternativeError(a, MissingFieldMessage)], "\n")))
  {
    ServerRun(p, a, b);
  }

  /** The service's error lines for the URLs "p", "a" and "b", as the run collects them. */
  lemma ServiceLines()
    ensures Failover("p", ["a", "b", "a"], TranslateAttempts(Network("a"), BeforeFieldRead)).errors
            == ["Primary API error: down", "Alternative API a error: 'translation'", "Alternative API b error: down"]
  {
    assert "p"[0] != "a"[0] && "a"[0] != "b"[0] && "b"[0] != "p"[0];
    ServiceRun("p", "a", "b");
    SpelledLines();
  }

  /** The three error lines of ServiceRun written out for "a" and "b". */
  lemma SpelledLines()
    ensures [PrimaryError("down"), AlternativeError("a", MissingFieldMessage), AlternativeError("b", "down")]
            == ["Primary API error: down", "Alternative API a error: 'translation'", "Alternative API b error: down"]
  {
    assert PrimaryError("down") == "Primary API error: down";
    assert AlternativeError("a", MissingFieldMessage) == "Alternative API a error: 'translation'";
    assert AlternativeError("b", "down") == "Alternative API b error: down";
  }
}
