/** The updater's state as the window is shown it (electron/update-state.js). */
module Updates {
  import opened Wrappers

  const MAX_LOG_LINES: nat := 200

  datatype Status = Idle | Downloading | Downloaded | Error
  datatype Failure = NoFailure | Install | Save | Verify | Download | Check
  datatype Page = NoPage | Latest | Tag(version: string)

  /** A percent as an event carries it: `NotFinite` is whatever is no finite number. */
  datatype Percent = NotFinite | Finite(value: real)

  /** An absent version is the empty one, as an absent message is. */
  datatype Event =
    | Checking
    | Dismissed
    | Found(version: string)
    | Progress(percent: Percent)
    | Finished(version: string)
    | NotAvailable
    | Failed(message: string)
    | InstallFailed(version: string, message: string)
    | UserAsks

  datatype State = State(status: Status, version: string, percent: real, message: string, checking: bool,
                         downloadFailed: bool, failure: Failure, page: Page)

  const INITIAL := State(Idle, "", 0.0, "", false, false, NoFailure, NoPage)

  function ReleasePage(version: string): Page { if version == "" then Latest else Tag(version) }

  function Or(version: string, other: string): string { if version == "" then other else version }

  predicate StartsWith(s: string, prefix: string) { |prefix| <= |s| && s[..|prefix|] == prefix }

  function Lower(s: string): string {
    seq(|s|, i requires 0 <= i < |s| => if 'A' <= s[i] <= 'Z' then s[i] + 32 as char else s[i])
  }

  predicate Mentions(s: string, word: string) {
    exists i | 0 <= i <= |s| :: StartsWith(Lower(s)[i..], word)
  }

  /** `failureKind`: what failed, told from the updater's own words. */
  function FailureKind(message: string, downloading: bool): Failure {
    if StartsWith(message, "EPERM:") || StartsWith(message, "EACCES:") || StartsWith(message, "EBUSY:") then Save
    else if Mentions(message, "sha512") || Mentions(message, "checksum") || Mentions(message, "signature")
            || Mentions(message, "not signed") then Verify
    else if downloading then Download else Check
  }

  /** `failedState`. */
  function FailedState(failure: Failure, version: string, message: string, downloadFailed: bool): State {
    State(Error, version, 0.0, message, false, downloadFailed, failure,
          if failure == Verify then NoPage else ReleasePage(version))
  }

  function ToPercent(p: Percent): real {
    if p.NotFinite? || p.value < 0.0 then 0.0 else if p.value > 100.0 then 100.0 else p.value
  }

  predicate FailedDownload(s: State) { s.status == Error && s.downloadFailed }

  function Moved(status: Status, version: string, percent: real): State {
    State(status, version, percent, "", false, false, NoFailure, NoPage)
  }

  /** `nextUpdateState`: the state an event leads to, or none when it is ignored. */
  function NextState(s: State, e: Event): Option<State> {
    if e.InstallFailed? then Some(FailedState(Install, Or(e.version, s.version), e.message, true))
    else if s.status == Downloaded then None
    else match e
      case Checking =>
        if (s.status != Idle && s.status != Error) || FailedDownload(s) then None else Some(s.(checking := true))
      case Dismissed => if FailedDownload(s) then Some(s.(downloadFailed := false)) else None
      case Found(version) =>
        if FailedDownload(s) then None
        else Some(Moved(Downloading, version, if s.status == Downloading && s.version == version then s.percent else 0.0))
      case Progress(p) => if FailedDownload(s) then None else Some(Moved(Downloading, s.version, ToPercent(p)))
      case Finished(version) => Some(Moved(Downloaded, Or(version, s.version), 100.0))
      case NotAvailable => if s.status == Downloading || FailedDownload(s) then None else Some(INITIAL)
      case Failed(message) =>
        var downloadFailed := s.status == Downloading || FailedDownload(s);
        Some(FailedState(FailureKind(message, downloadFailed), s.version, message, downloadFailed))
      case UserAsks => None
  }

  /** What the card can rely on whatever it is shown. */
  predicate Consistent(s: State) {
    && 0.0 <= s.percent <= 100.0
    && (s.status == Error <==> s.failure != NoFailure)
    && (s.status == Idle ==> s == INITIAL.(checking := s.checking))
    && (s.status == Error ==> s.percent == 0.0)
    && (s.status == Downloaded ==> s.percent == 100.0)
    && (s.status == Error || s.message == "")
    && (s.checking ==> s.status == Idle || (s.status == Error && !s.downloadFailed))
    && (s.downloadFailed ==> s.status == Error && s.failure != Check)
    && s.page == (if s.status == Error && s.failure != Verify then ReleasePage(s.version) else NoPage)
  }

  // --- The tracker -------------------------------------------------------------------------------------

  datatype Line = CheckLine | FoundLine(version: string) | ProgressLine(percent: real) | ReadyLine(version: string)
                | ErrorLine(message: string)

  datatype Shown = Shown(state: State, log: seq<Line>, revision: nat)

  /** What the tracker keeps, what it sent and reported, and how many progress lines followed the last found event. */
  datatype Tracking = Tracking(state: State, log: seq<Line>, step: int, revision: nat, userAsked: bool,
                               sent: seq<Shown>, reports: seq<Shown>, history: seq<Line>, sinceFound: nat)

  const START := Tracking(INITIAL, [], -1, 0, false, [], [], [], 0)

  function Tail(lines: seq<Line>): seq<Line> {
    if |lines| <= MAX_LOG_LINES then lines else lines[|lines| - MAX_LOG_LINES..]
  }

  function StepOf(percent: real): int { (percent / 10.0).Floor }

  /** The line an event logs, given the state it led to. */
  function LineFor(e: Event, s: State, step: int): Option<Line> {
    match e
    case Checking => Some(CheckLine)
    case Found(_) => Some(FoundLine(s.version))
    case Progress(_) => if StepOf(s.percent) <= step then None else Some(ProgressLine(s.percent))
    case Finished(_) => Some(ReadyLine(s.version))
    case Failed(message) => Some(ErrorLine(message))
    case InstallFailed(_, message) => Some(ErrorLine(message))
    case Dismissed | NotAvailable | UserAsks => None
  }

  /** Whether the window hears of the event: it changes the state, or it is an error. */
  predicate Heard(s: State, e: Event) { NextState(s, e).Some? || e.Failed? }

  function ResultState(s: State, e: Event): State {
    var next := NextState(s, e);
    if next.Some? then next.value else s
  }

  predicate IsResult(e: Event) { e.Finished? || e.NotAvailable? || e.Failed? }

  class Tracker {
    var state: State
    var log: seq<Line>
    var loggedStep: int
    var revision: nat
    var userAsked: bool
    var sent: seq<Shown>
    var reports: seq<Shown>
    ghost var history: seq<Line>
    ghost var sinceFound: nat

    ghost function Contents(): Tracking
      reads this
    {
      Tracking(state, log, loggedStep, revision, userAsked, sent, reports, history, sinceFound)
    }

    constructor ()
      ensures Contents() == START
    {
      state, log, loggedStep, revision, userAsked := INITIAL, [], -1, 0, false;
      sent, reports, history, sinceFound := [], [], [], 0;
    }

    /** `apply`: the state, the log and the revision change together, and the window hears of them at once. */
    method Apply(e: Event, logIgnored: bool)
      modifies this
      ensures Contents() == if NextState(old(state), e).Some? || logIgnored then Applied(old(Contents()), e) else old(Contents())
    {
      var next := NextState(state, e);
      if next.None? && !logIgnored {
        return;
      }
      if next.Some? {
        state := next.value;
      }
      ghost var was := old(Contents());
      assert state == ResultState(was.state, e);
      Show(e, was);
    }

    /** The line for the state an event led to is logged, and the window is sent it all. */
    method Show(e: Event, ghost was: Tracking)
      requires state == ResultState(was.state, e) && Contents() == was.(state := state)
      modifies this
      ensures Contents() == Applied(was, e)
    {
      var line := LineFor(e, state, loggedStep);
      if line.Some? {
        Logged(e, line.value);
      }
      revision := revision + 1;
      sent := sent + [Shown(state, log, revision)];
    }

    method Logged(e: Event, line: Line)
      modifies this`loggedStep, this`sinceFound, this`log, this`history
      ensures loggedStep == if e.Progress? then StepOf(state.percent) else old(loggedStep)
      ensures sinceFound == if e.Progress? then old(sinceFound) + 1 else old(sinceFound)
      ensures log == Tail(old(log) + [line]) && history == old(history) + [line]
    {
      if e.Progress? {
        loggedStep := StepOf(state.percent);
        sinceFound := sinceFound + 1;
      }
      log := Tail(log + [line]);
      history := history + [line];
    }

    /** The updater's events, and the user's. */
    method On(e: Event)
      modifies this
      ensures Contents() == After(old(Contents()), e)
    {
      match e {
        case Found(_) => loggedStep, sinceFound := -1, 0;
        case Finished(_) => userAsked := false;
        case NotAvailable => userAsked := false;
        case UserAsks => userAsked := true;
        case _ =>
      }
      if !e.UserAsks? {
        Apply(e, e.Failed?);
      }
      if e.Failed? && userAsked {
        userAsked := false;
        reports := reports + [Shown(state, log, revision)];
      }
    }
  }

  function Applied(t: Tracking, e: Event): Tracking {
    var s := ResultState(t.state, e);
    var line := LineFor(e, s, t.step);
    var log := if line.Some? then Tail(t.log + [line.value]) else t.log;
    t.(state := s, log := log,
       step := if line.Some? && e.Progress? then StepOf(s.percent) else t.step,
       sinceFound := if line.Some? && e.Progress? then t.sinceFound + 1 else t.sinceFound,
       history := if line.Some? then t.history + [line.value] else t.history,
       revision := t.revision + 1,
       sent := t.sent + [Shown(s, log, t.revision + 1)])
  }

  function Before(t: Tracking, e: Event): Tracking {
    match e
    case Found(_) => t.(step := -1, sinceFound := 0)
    case Finished(_) => t.(userAsked := false)
    case NotAvailable => t.(userAsked := false)
    case UserAsks => t.(userAsked := true)
    case _ => t
  }

  function After(t: Tracking, e: Event): Tracking {
    var b := Before(t, e);
    var a := if Heard(b.state, e) then Applied(b, e) else b;
    if e.Failed? && a.userAsked then
      a.(userAsked := false, reports := a.reports + [Shown(a.state, a.log, a.revision)])
    else a
  }

  function Run(events: seq<Event>): Tracking {
    if events == [] then START else After(Run(events[..|events| - 1]), events[|events| - 1])
  }

  method TrackRun(events: seq<Event>) returns (state: State, sent: seq<Shown>, reports: seq<Shown>)
    ensures state == Run(events).state && sent == Run(events).sent && reports == Run(events).reports
  {
    var tracker := new Tracker();
    var i := 0;
    while i < |events|
      invariant 0 <= i <= |events|
      invariant fresh(tracker) && tracker.Contents() == Run(events[..i])
    {
      assert events[..i + 1][..i] == events[..i];
      tracker.On(events[i]);
      i := i + 1;
    }
    assert events[..|events|] == events;
    state, sent, reports := tracker.state, tracker.sent, tracker.reports;
  }

  // --- What every run keeps ------------------------------------------------------------------------------

  ghost predicate Numbered(t: Tracking) {
    && |t.sent| == t.revision
    && (forall i :: 0 <= i < |t.sent| ==> t.sent[i].revision == i + 1)
  }

  ghost predicate Bounded(t: Tracking) {
    && t.log == Tail(t.history)
    && (forall i :: 0 <= i < |t.sent| ==> |t.sent[i].log| <= MAX_LOG_LINES && Consistent(t.sent[i].state))
    && t.sinceFound <= t.step + 1 && -1 <= t.step <= 10
  }

  lemma NextIsConsistent(s: State, e: Event)
    requires Consistent(s)
    ensures Consistent(ResultState(s, e))
  {
  }

  lemma TailOfTail(lines: seq<Line>, line: Line)
    ensures Tail(Tail(lines) + [line]) == Tail(lines + [line])
  {
  }

  lemma AppliedKeeps(b: Tracking, e: Event)
    requires Consistent(b.state) && Numbered(b) && Bounded(b) && Heard(b.state, e)
    ensures Consistent(Applied(b, e).state) && Numbered(Applied(b, e)) && Bounded(Applied(b, e))
  {
    NextIsConsistent(b.state, e);
    var s := ResultState(b.state, e);
    var line := LineFor(e, s, b.step);
    if line.Some? {
      TailOfTail(b.history, line.value);
    }
    assert -1 <= StepOf(s.percent) <= 10;
    var a := Applied(b, e);
    assert a.sent == b.sent + [Shown(s, a.log, b.revision + 1)];
  }

  lemma StepKeeps(t: Tracking, e: Event)
    requires Consistent(t.state) && Numbered(t) && Bounded(t)
    ensures Consistent(After(t, e).state) && Numbered(After(t, e)) && Bounded(After(t, e))
  {
    var b := Before(t, e);
    if Heard(b.state, e) {
      AppliedKeeps(b, e);
    }
  }

  /**
   * Every message has the next revision, a consistent state and at most 200 lines, the log's last ones; and
   * at most eleven progress lines follow a found event.
   */
  lemma {:induction false} EveryRun(events: seq<Event>)
    ensures Consistent(Run(events).state) && Numbered(Run(events)) && Bounded(Run(events))
    ensures Run(events).sinceFound <= 11
  {
    if events != [] {
      EveryRun(events[..|events| - 1]);
      StepKeeps(Run(events[..|events| - 1]), events[|events| - 1]);
    }
  }

  /** Only an installer that did not start moves a downloaded update, by any run of events. */
  lemma {:induction false} DownloadedStands(events: seq<Event>, n: nat)
    requires n <= |events| && Run(events[..n]).state.status == Downloaded
    ensures Run(events).state == Run(events[..n]).state || exists i :: n <= i < |events| && events[i].InstallFailed?
    decreases |events|
  {
    if n < |events| {
      var m := |events| - 1;
      assert events[..m][..n] == events[..n];
      DownloadedStands(events[..m], n);
    } else {
      assert events[..n] == events;
    }
  }

  lemma FailedDownloadStep(t: Tracking, e: Event)
    requires FailedDownload(t.state) && !e.Finished? && !e.Dismissed?
    ensures FailedDownload(After(t, e).state)
  {
    assert FailedDownload(ResultState(t.state, e));
    assert Before(t, e).state == t.state;
  }

  /** A failed download is on the card until a retried one finishes or the user dismisses it. */
  lemma {:induction false} FailedDownloadStands(events: seq<Event>, n: nat)
    requires n <= |events| && FailedDownload(Run(events[..n]).state)
    ensures FailedDownload(Run(events).state)
         || exists i :: n <= i < |events| && (events[i].Finished? || events[i].Dismissed?)
    decreases |events|
  {
    if n < |events| {
      var m := |events| - 1;
      assert events[..m][..n] == events[..n];
      FailedDownloadStands(events[..m], n);
      if FailedDownload(Run(events[..m]).state) {
        if !events[m].Finished? && !events[m].Dismissed? {
          FailedDownloadStep(Run(events[..m]), events[m]);
        }
      } else {
        var i :| n <= i < m && (events[..m][i].Finished? || events[..m][i].Dismissed?);
        assert events[i] == events[..m][i];
      }
    } else {
      assert events[..n] == events;
    }
  }

  // --- Whose failures are reported ---------------------------------------------------------------------------

  /** The user asked for a check that has no result yet. */
  ghost predicate Waiting(events: seq<Event>) {
    exists i :: 0 <= i < |events| && events[i].UserAsks? && forall j :: i < j < |events| ==> !IsResult(events[j])
  }

  function Asks(events: seq<Event>): nat {
    if events == [] then 0 else Asks(events[..|events| - 1]) + (if events[|events| - 1].UserAsks? then 1 else 0)
  }

  lemma WaitingAfter(events: seq<Event>)
    requires events != []
    ensures var e := events[|events| - 1];
            Waiting(events) <==> e.UserAsks? || (!IsResult(e) && Waiting(events[..|events| - 1]))
  {
    var n := |events| - 1;
    var before := events[..n];
    if Waiting(before) && !IsResult(events[n]) {
      var i :| 0 <= i < |before| && before[i].UserAsks? && forall j :: i < j < |before| ==> !IsResult(before[j]);
      forall j | i < j < |events|
        ensures !IsResult(events[j])
      {
        assert j < n ==> before[j] == events[j];
      }
      assert events[i].UserAsks?;
    }
    if Waiting(events) {
      var i :| 0 <= i < |events| && events[i].UserAsks? && forall j :: i < j < |events| ==> !IsResult(events[j]);
      if i < n {
        assert before[i].UserAsks?;
        assert forall j :: i < j < n ==> before[j] == events[j];
      }
    }
  }

  /** A failure is reported exactly when the user's own check was waiting for its result. */
  lemma {:induction false} ReportedWhenWaiting(events: seq<Event>)
    ensures Run(events).userAsked <==> Waiting(events)
    ensures events != [] ==>
              var before := Run(events[..|events| - 1]);
              |Run(events).reports| == |before.reports|
                + (if events[|events| - 1].Failed? && Waiting(events[..|events| - 1]) then 1 else 0)
  {
    if events != [] {
      ReportedWhenWaiting(events[..|events| - 1]);
      WaitingAfter(events);
    }
  }

  /** The user never hears of more failures than the checks they asked for. */
  lemma {:induction false} NoMoreReportsThanAsks(events: seq<Event>)
    ensures |Run(events).reports| + (if Run(events).userAsked then 1 else 0) <= Asks(events)
  {
    if events != [] {
      NoMoreReportsThanAsks(events[..|events| - 1]);
    }
  }

  /** The release page is offered for every failure but one the download's checks found. */
  lemma NoInstallerForAnUnverifiedDownload(events: seq<Event>)
    ensures var s := Run(events).state;
            s.page == NoPage <==> s.status != Error || s.failure == Verify
  {
    EveryRun(events);
  }

  // --- State by state ----------------------------------------------------------------------------------------

  /** A percent is shown as it is from 0 to 100, held to that range beyond it, and 0 when it is no number. */
  lemma PercentIsHeld(p: Percent)
    ensures p.NotFinite? ==> ToPercent(p) == 0.0
    ensures p.Finite? && 0.0 <= p.value <= 100.0 ==> ToPercent(p) == p.value
    ensures p.Finite? && p.value < 0.0 ==> ToPercent(p) == 0.0
    ensures p.Finite? && p.value > 100.0 ==> ToPercent(p) == 100.0
  {
  }

  /** An idle card, or one showing a failed check, says a check is under way and keeps all else; no other does. */
  lemma CheckIsShown(s: State)
    ensures ResultState(s, Checking) ==
            if s.status == Idle || (s.status == Error && !s.downloadFailed) then s.(checking := true) else s
  {
  }

  /** A check ends up to date, in a download, or in a failed check; nothing else moves an idle card or a failed check. */
  lemma CheckEnds(s: State, e: Event)
    requires Consistent(s) && (s.status == Idle || (s.status == Error && !s.downloadFailed))
    ensures e.NotAvailable? ==> ResultState(s, e) == INITIAL
    ensures e.Found? ==> ResultState(s, e) == Moved(Downloading, e.version, 0.0)
    ensures e.Progress? ==> ResultState(s, e).status == Downloading && ResultState(s, e).percent == ToPercent(e.percent)
    ensures e.Failed? ==>
              var t := ResultState(s, e);
              t.status == Error && !t.downloadFailed && t.message == e.message && t.version == s.version && t.failure != Download
    ensures e.Dismissed? || e.UserAsks? ==> ResultState(s, e) == s
  {
  }

  /** A download goes on, whatever checks say, until it has finished or failed; only another version starts it anew. */
  lemma DownloadGoesOn(s: State, e: Event)
    requires Consistent(s) && s.status == Downloading
    ensures e.Checking? || e.Dismissed? || e.NotAvailable? || e.UserAsks? || (e.Found? && e.version == s.version) ==>
              ResultState(s, e) == s
    ensures e.Found? && e.version != s.version ==> ResultState(s, e) == s.(version := e.version, percent := 0.0)
    ensures e.Progress? ==> ResultState(s, e) == s.(percent := ToPercent(e.percent))
    ensures e.Finished? ==> ResultState(s, e).status == Downloaded
    ensures e.Failed? ==>
              var t := ResultState(s, e);
              FailedDownload(t) && t.message == e.message && t.version == s.version && t.failure != Check
  {
  }

  /** A failed download is left as it is by checks and by what they find; it is dismissed, finished or failed again. */
  lemma FailedDownloadIsLeft(s: State, e: Event)
    requires Consistent(s) && FailedDownload(s)
    ensures e.Checking? || e.Found? || e.Progress? || e.NotAvailable? || e.UserAsks? ==> ResultState(s, e) == s
    ensures e.Dismissed? ==> ResultState(s, e) == s.(downloadFailed := false)
    ensures e.Finished? ==> ResultState(s, e).status == Downloaded
    ensures e.Failed? ==> FailedDownload(ResultState(s, e)) && ResultState(s, e).message == e.message
  {
  }

  /** An update that is downloaded is whole, and of the version last named. */
  lemma FinishedIsWhole(s: State, version: string)
    requires s.status != Downloaded
    ensures var t := ResultState(s, Finished(version));
      && t.status == Downloaded && t.percent == 100.0 && t.failure == NoFailure && t.page == NoPage && t.message == ""
      && t.version == (if version != "" then version else s.version)
  {
  }

  /** An installer that did not start is offered again, whatever the card showed. */
  lemma InstallerIsOffered(s: State, version: string, message: string)
    ensures var t := ResultState(s, InstallFailed(version, message));
      && FailedDownload(t) && t.failure == Install && t.message == message
      && (version != "" ==> t.version == version && t.page == Tag(version))
      && (version == "" ==> t.version == s.version && t.page == (if s.version != "" then Tag(s.version) else Latest))
  {
  }

  // --- What failed ---------------------------------------------------------------------------------------------

  lemma LowerOfParts(a: string, b: string)
    ensures Lower(a + b) == Lower(a) + Lower(b)
  {
  }

  /** The words a failed check of the download is told by. */
  const WORDS: set<string> := {"sha512", "checksum", "signature", "not signed"}

  lemma MentionsAnywhere(before: string, word: string, after: string, w: string)
    requires Lower(word) == w
    ensures Mentions(before + word + after, w)
  {
    LowerOfParts(before, word + after);
    LowerOfParts(word, after);
    var s := before + word + after;
    assert s == before + (word + after);
    assert Lower(s)[|before|..] == Lower(word) + Lower(after);
    assert StartsWith(Lower(s)[|before|..], w);
  }

  /** An error of the file system refusing is a failed save, whatever else it says. */
  lemma RefusedIsSave(code: string, rest: string, downloading: bool)
    requires code in {"EPERM:", "EACCES:", "EBUSY:"}
    ensures FailureKind(code + rest, downloading) == Save
  {
    assert (code + rest)[..|code|] == code;
  }

  /** An error naming one of the words, anywhere and in any case, is a failed verification unless it is a failed save. */
  lemma NamedIsVerify(before: string, word: string, after: string, downloading: bool)
    requires Lower(word) in WORDS
    ensures FailureKind(before + word + after, downloading) in {Save, Verify}
  {
    MentionsAnywhere(before, word, after, Lower(word));
  }

  /** Any other failed in what was under way. */
  lemma OtherIsWhatWasUnderWay(message: string, downloading: bool)
    requires forall code :: code in {"EPERM:", "EACCES:", "EBUSY:"} ==> !StartsWith(message, code)
    requires forall w :: w in WORDS ==> !Mentions(message, w)
    ensures FailureKind(message, downloading) == if downloading then Download else Check
  {
    assert "EPERM:" in {"EPERM:", "EACCES:", "EBUSY:"} && "EACCES:" in {"EPERM:", "EACCES:", "EBUSY:"}
        && "EBUSY:" in {"EPERM:", "EACCES:", "EBUSY:"};
    assert "sha512" in WORDS && "checksum" in WORDS && "signature" in WORDS && "not signed" in WORDS;
  }

  /** And a failed save or verification is told by its words alone. */
  lemma ToldByItsWords(message: string, downloading: bool)
    ensures FailureKind(message, downloading) == Save ==>
              exists code :: code in {"EPERM:", "EACCES:", "EBUSY:"} && StartsWith(message, code)
    ensures FailureKind(message, downloading) == Verify ==> exists w :: w in WORDS && Mentions(message, w)
    ensures FailureKind(message, downloading) != Install && FailureKind(message, downloading) != NoFailure
  {
    if FailureKind(message, downloading) == Verify {
      assert "sha512" in WORDS && "checksum" in WORDS && "signature" in WORDS && "not signed" in WORDS;
    }
    if FailureKind(message, downloading) == Save {
      var codes := {"EPERM:", "EACCES:", "EBUSY:"};
      assert "EPERM:" in codes && "EACCES:" in codes && "EBUSY:" in codes;
    }
  }

  // --- What is logged ------------------------------------------------------------------------------------------

  /** Each event the window hears of is logged as what it is: progress once for each tenth, and errors even when nothing changes. */
  lemma LoggedExactly(t: Tracking, e: Event)
    ensures var b := After(t, e); var logged := if |t.history| < |b.history| then Some(b.history[|b.history| - 1]) else None;
      && t.history <= b.history && |b.history| <= |t.history| + 1
      && (e.Failed? ==> logged == Some(ErrorLine(e.message)))
      && (e.InstallFailed? ==> logged == Some(ErrorLine(e.message)))
      && (e.Checking? ==> logged == if Heard(t.state, e) then Some(CheckLine) else None)
      && (e.Found? ==> logged == if Heard(t.state, e) then Some(FoundLine(e.version)) else None)
      && (e.Finished? ==> logged == if t.state.status != Downloaded then Some(ReadyLine(b.state.version)) else None)
      && (e.Progress? ==>
            logged == if Heard(t.state, e) && StepOf(b.state.percent) > t.step then Some(ProgressLine(b.state.percent)) else None)
      && (e.Dismissed? || e.NotAvailable? || e.UserAsks? ==> logged == None)
  {
  }

  /** The window is told of exactly what changes the state, and of errors. */
  lemma ToldExactly(t: Tracking, e: Event)
    ensures After(t, e).revision == t.revision + (if NextState(t.state, e).Some? || e.Failed? then 1 else 0)
    ensures NextState(t.state, e).None? ==> After(t, e).state == t.state
  {
  }

  lemma RunOneMore(events: seq<Event>, e: Event)
    ensures Run(events + [e]) == After(Run(events), e)
  {
    assert (events + [e])[..|events|] == events;
  }

  function UpdateEvents(version: string): seq<Event> { [Checking] + [Found(version)] + [Progress(Finite(50.0))] + [Finished(version)] }

  lemma UpdateIsFound(version: string)
    ensures var t := Run([Checking] + [Found(version)]);
      t.state == Moved(Downloading, version, 0.0) && t.revision == 2 && t.step == -1 && t.history == [CheckLine, FoundLine(version)]
  {
    RunOneMore([], Checking);
    assert [] + [Checking] == [Checking];
    RunOneMore([Checking], Found(version));
  }

  lemma HalfWay(t: Tracking, version: string)
    requires t.state == Moved(Downloading, version, 0.0) && t.step == -1
    ensures var u := After(t, Progress(Finite(50.0)));
      u.state == Moved(Downloading, version, 50.0) && u.revision == t.revision + 1 && u.history == t.history + [ProgressLine(50.0)]
  {
  }

  lemma AllTheWay(t: Tracking, version: string)
    requires t.state.status == Downloading && t.state.version == version
    ensures var u := After(t, Finished(version));
      u.state == Moved(Downloaded, version, 100.0) && u.revision == t.revision + 1 && u.history == t.history + [ReadyLine(version)]
  {
  }

  /** An update found, downloaded and ready, as the card shows it and the log tells it. */
  lemma UpdateArrives(version: string)
    ensures var t := Run(UpdateEvents(version));
      && t.state == Moved(Downloaded, version, 100.0) && t.revision == 4
      && t.history == [CheckLine, FoundLine(version)] + [ProgressLine(50.0)] + [ReadyLine(version)]
  {
    var found := [Checking] + [Found(version)];
    UpdateIsFound(version);
    RunOneMore(found, Progress(Finite(50.0)));
    HalfWay(Run(found), version);
    RunOneMore(found + [Progress(Finite(50.0))], Finished(version));
    AllTheWay(Run(found + [Progress(Finite(50.0))]), version);
  }

  /** What the window was last sent is what there is to show, and what a report shows was sent. */
  ghost predicate UpToDate(t: Tracking) {
    && (t.sent == [] ==> t.state == INITIAL && t.log == [] && t.revision == 0)
    && (t.sent != [] ==> t.sent[|t.sent| - 1] == Shown(t.state, t.log, t.revision))
    && (forall r :: r in t.reports ==> r in t.sent)
  }

  lemma AppliedIsUpToDate(b: Tracking, e: Event)
    requires UpToDate(b)
    ensures UpToDate(Applied(b, e)) && Applied(b, e).sent != [] && Applied(b, e).reports == b.reports
  {
    var a := Applied(b, e);
    assert a.sent == b.sent + [Shown(a.state, a.log, a.revision)];
  }

  lemma StillUpToDate(t: Tracking, e: Event)
    requires UpToDate(t)
    ensures UpToDate(After(t, e))
  {
    var b := Before(t, e);
    assert UpToDate(b);
    if Heard(b.state, e) {
      AppliedIsUpToDate(b, e);
    }
  }

  lemma {:induction false} WindowIsUpToDate(events: seq<Event>)
    ensures UpToDate(Run(events))
  {
    if events != [] {
      WindowIsUpToDate(events[..|events| - 1]);
      StillUpToDate(Run(events[..|events| - 1]), events[|events| - 1]);
    }
  }
}
