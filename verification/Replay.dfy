/** The event log determines ExoSys storage: replaying all events since genesis rebuilds
    reviews, reports and vulnerabilities, and of every challenge its place, author and state.
  */
module Replay {
  import opened Prelude
  import opened Chain
  import opened ExoChanges
  import opened Runs
  import Dispatcher
  import ExoSys

  /** What an event tells about a challenge; its demands are in no event. */
  datatype Mark = Mark(auditor: AccountId, state: ChallengeState)

  datatype View = View(
    reviews: map<Hash, Review>,
    reports: map<Hash, seq<Report>>,
    vulnerabilities: map<(Hash, ReportId), seq<Vulnerability>>,
    challenges: map<(Hash, ReportId), seq<Mark>>)
  {
    function ReportsOf(hash: Hash): seq<Report> {
      if hash in reports then reports[hash] else []
    }

    function MarksOf(hash: Hash, reportId: ReportId): seq<Mark> {
      if (hash, reportId) in challenges then challenges[(hash, reportId)] else []
    }

    /** Reports are numbered in the order in which they arrive. */
    function AddReport(hash: Hash, reportId: ReportId, report: Report): Option<View> {
      if |ReportsOf(hash)| == reportId
      then Some(this.(reports := reports[hash := ReportsOf(hash) + [report]]))
      else None
    }

    function SetState(hash: Hash, reportId: ReportId, challengeId: ChallengeId, state: ChallengeState): Option<View> {
      var marks := MarksOf(hash, reportId);
      if challengeId < |marks|
      then Some(this.(challenges := challenges[(hash, reportId) :=
                                      marks[challengeId := marks[challengeId].(state := state)]]))
      else None
    }

    /** One event; None when it does not fit what was seen before. */
    function After(e: Event): Option<View> {
      match e
      case SignedUp(_) => Some(this)
      case GameResult(_, _, _) => Some(this)
      case ReviewRequest(requestor, minAuditorScore, bounty, url, hash) =>
        if hash in reviews then None
        else Some(this.(reviews := reviews[hash := Review(requestor, minAuditorScore, bounty, hash, url)]))
      case ReviewInvalid(hash, reportId, auditor) =>
        AddReport(hash, reportId, Report(auditor, Invalid))
      case ReviewReportCreated(hash, reportId, auditor) =>
        (match AddReport(hash, reportId, Report(auditor, Success))
         case None => None
         case Some(v) => Some(v.(vulnerabilities := v.vulnerabilities[(hash, reportId) := []])))
      case VulnerabilityAdded(hash, reportId, vulnerabilityId, vulnerability) =>
        if (hash, reportId) in vulnerabilities && |vulnerabilities[(hash, reportId)]| == vulnerabilityId
        then Some(this.(vulnerabilities := vulnerabilities[(hash, reportId) :=
                                             vulnerabilities[(hash, reportId)] + [vulnerability]]))
        else None
      case ChallengeStarted(hash, reportId, challengeId, auditor) =>
        if |MarksOf(hash, reportId)| == challengeId
        then Some(this.(challenges := challenges[(hash, reportId) :=
                                        MarksOf(hash, reportId) + [Mark(auditor, Pending)]]))
        else None
      case ChallengeAccepted(hash, reportId, challengeId) =>
        SetState(hash, reportId, challengeId, Accepted)
      case ChallengeRejected(hash, reportId, challengeId) =>
        SetState(hash, reportId, challengeId, ChallengeState.Rejected)
      case ChallengeRemoved(hash, reportId, challengeId) =>
        SetState(hash, reportId, challengeId, ChallengeState.Removed)
    }
  }

  function ReplayFrom(v: View, events: seq<Event>): Option<View> {
    if events == [] then
      Some(v)
    else
      match ReplayFrom(v, events[..|events| - 1])
      case None => None
      case Some(w) => w.After(events[|events| - 1])
  }

  const NOTHING_SEEN: View := View(map[], map[], map[], map[])

  function Marks(challenges: seq<Challenge>): (marks: seq<Mark>)
    ensures |marks| == |challenges|
  {
    seq(|challenges|, i requires 0 <= i < |challenges| => Mark(challenges[i].auditor, challenges[i].state))
  }

  /** Storage without the demands of challenges. */
  function ViewOf(exo: Exo): View {
    View(exo.reviews, exo.reports, exo.vulnerabilities,
         map key | key in exo.challenges :: Marks(exo.challenges[key]))
  }

  lemma {:induction false} ReplayConcat(v: View, a: seq<Event>, b: seq<Event>)
    ensures ReplayFrom(v, a + b) ==
      match ReplayFrom(v, a)
      case None => None
      case Some(w) => ReplayFrom(w, b)
    decreases |b|
  {
    if b == [] {
      assert a + b == a;
    } else {
      ReplayConcat(v, a, b[..|b| - 1]);
      assert (a + b)[..|a + b| - 1] == a + b[..|b| - 1];
    }
  }

  lemma {:induction false} ReplayOne(v: View, e: Event)
    ensures ReplayFrom(v, [e]) == v.After(e)
  {
  }

  /** The events of the vulnerability loop rebuild the submitted list. */
  lemma {:induction false} ReplayVulnerabilities(v: View, hash: Hash, reportId: ReportId, found: Vulnerabilities)
    requires (hash, reportId) in v.vulnerabilities && v.vulnerabilities[(hash, reportId)] == []
    ensures ReplayFrom(v, ExoSys.VulnerabilityEvents(hash, reportId, found))
         == Some(v.(vulnerabilities := v.vulnerabilities[(hash, reportId) := found]))
    decreases |found|
  {
    var n := |found| - 1;
    if n == -1 {
      assert v.vulnerabilities[(hash, reportId) := []] == v.vulnerabilities;
    } else {
      ReplayVulnerabilities(v, hash, reportId, found[..n]);
      var events := ExoSys.VulnerabilityEvents(hash, reportId, found);
      assert events[..n] == ExoSys.VulnerabilityEvents(hash, reportId, found[..n]);
      assert found[..n] + [found[n]] == found;
      assert v.vulnerabilities[(hash, reportId) := found[..n]][(hash, reportId) := found]
          == v.vulnerabilities[(hash, reportId) := found];
    }
  }

  /** Replaying the events of one change has the effect of the change. */
  lemma {:induction false} ReplayChange(exo: Exo, c: ExoChange)
    requires Allowed(exo, c)
    ensures ReplayFrom(ViewOf(exo), EventsOf(exo, c)) == Some(ViewOf(Changed(exo, c)))
  {
    var v := ViewOf(exo);
    match c
    case Nothing =>
    case FiledReport(hash, auditor, found) =>
      var reportId: ReportId := |exo.ReportsOf(hash)|;
      var created := ReviewReportCreated(hash, reportId, auditor);
      ReplayOne(v, created);
      ReplayConcat(v, [created], ExoSys.VulnerabilityEvents(hash, reportId, found));
      ReplayVulnerabilities(v.After(created).value, hash, reportId, found);
      assert v.vulnerabilities[(hash, reportId) := []][(hash, reportId) := found]
          == v.vulnerabilities[(hash, reportId) := found];
    case Challenged(hash, reportId, auditor, demands) =>
      ReplayOne(v, EventsOf(exo, c)[0]);
      ReplayChallenged(exo, hash, reportId, auditor, demands);
    case Closed(hash, reportId, challengeId, verdict) =>
      ReplayOne(v, EventsOf(exo, c)[0]);
      ReplayClosed(exo, hash, reportId, challengeId, verdict);
    case _ =>
      ReplayOne(v, EventsOf(exo, c)[0]);
  }

  lemma {:induction false} ViewOfUpdate(exo: Exo, key: (Hash, ReportId), challenges: Challenges)
    ensures
      var w := ViewOf(exo.(challenges := exo.challenges[key := challenges]));
      w == ViewOf(exo).(challenges := ViewOf(exo).challenges[key := Marks(challenges)])
    ensures ViewOf(exo).MarksOf(key.0, key.1) == Marks(exo.ChallengesOf(key.0, key.1))
  {
  }

  lemma {:induction false} ReplayChallenged(exo: Exo, hash: Hash, reportId: ReportId, auditor: AccountId,
                                            demands: Demands)
    requires Allowed(exo, Challenged(hash, reportId, auditor, demands))
    ensures ViewOf(exo).After(ChallengeStarted(hash, reportId, |exo.ChallengesOf(hash, reportId)|, auditor))
         == Some(ViewOf(Changed(exo, Challenged(hash, reportId, auditor, demands))))
  {
    var challenges := exo.ChallengesOf(hash, reportId);
    var longer: Challenges := challenges + [Challenge(auditor, Pending, demands)];
    assert Marks(longer) == Marks(challenges) + [Mark(auditor, Pending)];
    ViewOfUpdate(exo, (hash, reportId), longer);
  }

  lemma {:induction false} ReplayClosed(exo: Exo, hash: Hash, reportId: ReportId, challengeId: ChallengeId,
                                        verdict: Verdict)
    requires Allowed(exo, Closed(hash, reportId, challengeId, verdict))
    ensures ViewOf(exo).After(verdict.Closing(hash, reportId, challengeId))
         == Some(ViewOf(Changed(exo, Closed(hash, reportId, challengeId, verdict))))
  {
    var challenges := exo.ChallengesOf(hash, reportId);
    var closed := challenges[challengeId].(state := verdict.State());
    var updated: Challenges := challenges[challengeId := closed];
    assert Marks(updated) == Marks(challenges)[challengeId := Mark(closed.auditor, closed.state)];
    ViewOfUpdate(exo, (hash, reportId), updated);
  }

  /** In every reachable state, replaying the events deposited since genesis succeeds and gives
      exactly what is stored. */
  lemma {:induction false} ReplayRefinesStorage(r: Run, n: nat)
    requires n <= |r.xs| && r.StartsEmpty()
    ensures ReplayFrom(NOTHING_SEEN, r.At(n).events) == Some(ViewOf(r.At(n).exo))
  {
    if n == 0 {
      assert ViewOf(NO_EXO) == NOTHING_SEEN;
    } else {
      ReplayRefinesStorage(r, n - 1);
      assert r.Step(n - 1);
      ReplayStep(r.cfg, r.At(n - 1), r.xs[n - 1]);
    }
  }

  lemma {:induction false} ReplayStep(cfg: Config, s: State, x: Extrinsic)
    requires ReplayFrom(NOTHING_SEEN, s.events) == Some(ViewOf(s.exo))
    ensures
      var t := Dispatcher.Dispatch(cfg, s, x);
      ReplayFrom(NOTHING_SEEN, t.events) == Some(ViewOf(t.exo))
  {
    ExoStep(cfg, s, x);
    ReplayMakes(s, Dispatcher.Dispatch(cfg, s, x), ChangeBy(cfg, s, x), AuditRepEvents(cfg, s, x));
  }

  lemma {:induction false} ReplayMakes(s: State, t: State, c: ExoChange, first: seq<Event>)
    requires ReplayFrom(NOTHING_SEEN, s.events) == Some(ViewOf(s.exo)) && Makes(s, t, c, first)
    requires |first| <= 1 && forall e :: e in first ==> e.SignedUp? || e.GameResult?
    ensures ReplayFrom(NOTHING_SEEN, t.events) == Some(ViewOf(t.exo))
  {
    ReplayChange(s.exo, c);
    if first != [] {
      assert first == [first[0]];
      ReplayOne(ViewOf(s.exo), first[0]);
    }
    ReplayConcat(NOTHING_SEEN, s.events, first);
    ReplayConcat(NOTHING_SEEN, s.events + first, EventsOf(s.exo, c));
  }
}
