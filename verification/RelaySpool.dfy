/**
 The restart relay's spool: every valid drop makes the Pod be deleted, and the
 archived drop is the marker that keeps the same request from doing it again.
 */
module RelaySpool {
  import opened Options

  type Path = string       // a file name in the control directory
  type RequestId = string

  /** A drop file's content once read: not JSON, or the four fields that are checked. */
  datatype Drop = Malformed | Drop(schemaVersion: int, kind: string, requestId: RequestId, runtimeId: string)

  datatype Event =
    | DeleteIssued(id: RequestId, confirmed: bool) // the Pod delete for a request; confirmed also when the Pod was gone
    | Marked(id: RequestId)                        // the drop was renamed to its consumed marker
    | Left(path: Path, drop: Drop)                 // a readable drop left the spool
    | LeftUnread(path: Path)

  datatype Spool = Spool(files: map<Path, Drop>, markers: set<RequestId>, log: seq<Event>)

  const EmptySpool: Spool := Spool(map[], {}, [])

  datatype DeleteResult = Crashed | Failed | Confirmed

  /**
   How the file system, the API server, crashes and the runtime treat one
   consume. A replacement is a drop written to the same path after the read and
   before the file is removed or renamed.
   */
  datatype Attempt = Attempt(
    readable: bool,
    replacement: Option<Drop>,
    removes: bool,
    statAnswers: bool,
    delete: DeleteResult,
    archives: bool)

  const Smooth: Attempt := Attempt(true, None, true, true, Confirmed, true)

  predicate Valid(d: Drop, runtimeId: string) {
    && d.Drop?
    && d.schemaVersion == 1
    && d.kind == "restart"
    && d.requestId != "" && '/' !in d.requestId && '\\' !in d.requestId
    && d.runtimeId == runtimeId
  }

  function Replaced(s: Spool, path: Path, replacement: Option<Drop>): Spool {
    if replacement.Some? then s.(files := s.files[path := replacement.value]) else s
  }

  function Remove(s: Spool, path: Path, event: Event, removes: bool): Spool {
    if removes && path in s.files then s.(files := s.files - {path}, log := s.log + [event]) else s
  }

  /** What is seen leaving when the path is removed or renamed. */
  function Departure(s: Spool, path: Path, a: Attempt): Event {
    if a.replacement.Some? then Left(path, a.replacement.value)
    else if path in s.files && a.readable then Left(path, s.files[path])
    else LeftUnread(path)
  }

  /** The drop read is valid and not known as consumed, so the Pod is to be deleted. */
  predicate Actuates(s: Spool, runtimeId: string, path: Path, a: Attempt) {
    && path in s.files && a.readable && Valid(s.files[path], runtimeId)
    && !(s.files[path].requestId in s.markers && a.statAnswers)
  }

  /** consume. */
  function Consumed(s: Spool, runtimeId: string, path: Path, a: Attempt): Spool {
    var now := Replaced(s, path, a.replacement);
    if !Actuates(s, runtimeId, path, a) then Remove(now, path, Departure(s, path, a), a.removes)
    else if a.delete == Crashed then now
    else
      var id := s.files[path].requestId;
      var issued := now.(log := s.log + [DeleteIssued(id, a.delete == Confirmed)]);
      if a.delete == Failed || !a.archives then issued
      else Spool(now.files - {path}, s.markers + {id}, issued.log + [Marked(id), Departure(s, path, a)])
  }

  /** One pass: consume path after path. */
  function Passed(s: Spool, runtimeId: string, matches: seq<Path>, attempts: Path -> Attempt): Spool {
    if matches == [] then s
    else
      var n := |matches| - 1;
      Consumed(Passed(s, runtimeId, matches[..n], attempts), runtimeId, matches[n], attempts(matches[n]))
  }

  // ---------------------------------------------------------------- the scan

  /** The glob restart-*.json. */
  predicate IsDrop(path: Path) {
    "restart-" <= path && |path| >= 13 && path[|path| - 5..] == ".json"
  }

  ghost predicate Globbed(path: Path, middle: string) {
    path == "restart-" + middle + ".json"
  }

  /** The star stands for any text, also for none. */
  lemma GlobExactly(path: Path)
    ensures IsDrop(path) <==> exists middle :: Globbed(path, middle)
  {
    if IsDrop(path) {
      var middle := path[8..|path| - 5];
      assert path == path[..8] + middle + path[|path| - 5..];
      assert Globbed(path, middle);
    }
    if middle :| Globbed(path, middle) {
      assert path[..8] == "restart-" && path[|path| - 5..] == ".json";
    }
  }

  /** The order of sort.Strings. */
  predicate AtOrBefore(a: Path, b: Path) {
    a == [] || (b != [] && (a[0] < b[0] || (a[0] == b[0] && AtOrBefore(a[1..], b[1..]))))
  }

  lemma {:induction false} OrderIsTotal(a: Path, b: Path)
    ensures AtOrBefore(a, b) || AtOrBefore(b, a)
    ensures AtOrBefore(a, b) && AtOrBefore(b, a) ==> a == b
  {
    if a != [] && b != [] {
      OrderIsTotal(a[1..], b[1..]);
      assert a == [a[0]] + a[1..] && b == [b[0]] + b[1..];
    }
  }

  lemma {:induction false} OrderIsTransitive(a: Path, b: Path, c: Path)
    requires AtOrBefore(a, b) && AtOrBefore(b, c)
    ensures AtOrBefore(a, c)
  {
    if a != [] && a[0] == b[0] == c[0] {
      OrderIsTransitive(a[1..], b[1..], c[1..]);
    }
  }

  /** The drop files, each once, in order. */
  ghost predicate Lists(matches: seq<Path>, files: map<Path, Drop>) {
    && (forall p :: p in matches <==> p in files && IsDrop(p))
    && Distinct(matches)
    && forall i, j :: 0 <= i < j < |matches| ==> AtOrBefore(matches[i], matches[j])
  }

  predicate Distinct(paths: seq<Path>) {
    forall i, j :: 0 <= i < j < |paths| ==> paths[i] != paths[j]
  }

  method Least(paths: set<Path>) returns (least: Path)
    requires paths != {}
    ensures least in paths && forall p :: p in paths ==> AtOrBefore(least, p)
  {
    least :| least in paths;
    OrderIsTotal(least, least);
    var rest := paths - {least};
    while rest != {}
      invariant rest <= paths && least in paths
      invariant forall p :: p in paths && p !in rest ==> AtOrBefore(least, p)
      decreases rest
    {
      var p :| p in rest;
      rest := rest - {p};
      OrderIsTotal(least, p);
      OrderIsTotal(p, p);
      if AtOrBefore(p, least) {
        forall q | q in paths && q !in rest ensures AtOrBefore(p, q) {
          if q != p {
            OrderIsTransitive(p, least, q);
          }
        }
        least := p;
      }
    }
  }

  // ---------------------------------------------------------------- the watcher

  class Watcher {
    var files: map<Path, Drop>
    var markers: set<RequestId>
    ghost var log: seq<Event>
    const runtimeId: string

    constructor (runtimeId: string)
      ensures View() == EmptySpool && this.runtimeId == runtimeId
    {
      files, markers, log := map[], {}, [];
      this.runtimeId := runtimeId;
    }

    ghost function View(): Spool
      reads this
    {
      Spool(files, markers, log)
    }

    method RemoveDrop(path: Path, ghost event: Event, removes: bool)
      modifies this
      ensures View() == Remove(old(View()), path, event, removes)
    {
      if removes && path in files {
        files := files - {path};
        log := log + [event];
      }
    }

    method Consume(path: Path, a: Attempt)
      requires LogOk(View())
      modifies this
      ensures LogOk(View()) && View() == Consumed(old(View()), runtimeId, path, a)
    {
      ConsumeOk(View(), runtimeId, path, a);
      ghost var departure := Departure(View(), path, a);
      var unread := path !in files || !a.readable;
      var drop := if path in files then files[path] else Malformed;
      // what follows works on the path, whatever it holds by then
      if a.replacement.Some? {
        files := files[path := a.replacement.value];
      }
      if unread || drop.Malformed? || drop.schemaVersion != 1 || drop.kind != "restart" {
        RemoveDrop(path, departure, a.removes);
        return;
      }
      if drop.requestId == "" || '/' in drop.requestId || '\\' in drop.requestId || drop.runtimeId != runtimeId {
        RemoveDrop(path, departure, a.removes);
        return;
      }
      if drop.requestId in markers && a.statAnswers {
        RemoveDrop(path, departure, a.removes);
        return;
      }
      if a.delete == Crashed {
        return;
      }
      log := log + [DeleteIssued(drop.requestId, a.delete == Confirmed)];
      if a.delete == Failed {
        return;
      }
      if a.archives {
        files := files - {path};
        markers := markers + {drop.requestId};
        log := log + [Marked(drop.requestId), departure];
      }
    }

    /** filepath.Glob and sort.Strings. */
    method Scan() returns (matches: seq<Path>)
      ensures Lists(matches, files)
    {
      matches := [];
      var rest := set p | p in files && IsDrop(p);
      while rest != {}
        invariant forall p :: p in rest || p in matches <==> p in files && IsDrop(p)
        invariant forall p :: p in matches ==> p !in rest
        invariant Distinct(matches)
        invariant forall i, j :: 0 <= i < j < |matches| ==> AtOrBefore(matches[i], matches[j])
        invariant forall i, p :: 0 <= i < |matches| && p in rest ==> AtOrBefore(matches[i], p)
        decreases rest
      {
        var least := Least(rest);
        matches := matches + [least];
        rest := rest - {least};
      }
    }

    /** pollOnce: scan, then consume the paths found, one after another. */
    method PollOnce(attempts: Path -> Attempt) returns (matches: seq<Path>)
      requires LogOk(View())
      modifies this
      ensures LogOk(View()) && Lists(matches, old(files))
      ensures View() == Passed(old(View()), runtimeId, matches, attempts)
    {
      matches := Scan();
      for i := 0 to |matches|
        invariant LogOk(View()) && View() == Passed(old(View()), runtimeId, matches[..i], attempts)
      {
        Consume(matches[i], attempts(matches[i]));
        assert matches[..i + 1][..i] == matches[..i];
      }
      assert matches[..|matches|] == matches;
    }
  }

  // ---------------------------------------------------------------- every run

  /** The runtime drops files at any time; consumes happen one after another, each cut short or not. */
  datatype Step = Arrive(path: Path, drop: Drop) | Consume(path: Path, attempt: Attempt)

  function Next(s: Spool, runtimeId: string, step: Step): Spool {
    match step
    case Arrive(path, drop) => s.(files := s.files[path := drop])
    case Consume(path, attempt) => Consumed(s, runtimeId, path, attempt)
  }

  function Run(runtimeId: string, steps: seq<Step>): Spool {
    if steps == [] then EmptySpool else Next(Run(runtimeId, steps[..|steps| - 1]), runtimeId, steps[|steps| - 1])
  }

  /** A confirmed Pod delete for the request stands among the first k events. */
  ghost predicate ConfirmedBefore(log: seq<Event>, k: int, id: RequestId) {
    exists j :: 0 <= j < k && j < |log| && log[j] == DeleteIssued(id, true)
  }

  /** A marker stands for every marking, and every marking follows a confirmed delete. */
  ghost predicate LogOk(s: Spool) {
    && (forall id :: id in s.markers <==> Marked(id) in s.log)
    && (forall k :: 0 <= k < |s.log| && s.log[k].Marked? ==> ConfirmedBefore(s.log, k, s.log[k].id))
  }

  lemma ConfirmedStays(log: seq<Event>, more: seq<Event>, k: int, id: RequestId)
    requires k <= |log|
    ensures ConfirmedBefore(log + more, k, id) <==> ConfirmedBefore(log, k, id)
  {
    forall j | 0 <= j < k ensures (log + more)[j] == log[j] {
    }
  }

  /** Appending one event keeps the log in order if a marking has its reason before it. */
  lemma AppendOk(s: Spool, s': Spool, event: Event)
    requires LogOk(s) && s'.log == s.log + [event]
    requires s'.markers == if event.Marked? then s.markers + {event.id} else s.markers
    requires event.Marked? ==> ConfirmedBefore(s.log, |s.log|, event.id)
    ensures LogOk(s')
  {
    forall id ensures id in s'.markers <==> Marked(id) in s'.log {
      assert Marked(id) in s'.log <==> Marked(id) in s.log || event == Marked(id);
    }
    forall k | 0 <= k < |s'.log| && s'.log[k].Marked? ensures ConfirmedBefore(s'.log, k, s'.log[k].id) {
      ConfirmedStays(s.log, [event], k, s'.log[k].id);
    }
  }

  lemma MarkedWasConfirmed(s: Spool, id: RequestId)
    requires LogOk(s) && id in s.markers
    ensures ConfirmedBefore(s.log, |s.log|, id)
  {
    var k :| 0 <= k < |s.log| && s.log[k] == Marked(id);
    assert ConfirmedBefore(s.log, k, s.log[k].id);
  }

  lemma ConsumeOk(s: Spool, runtimeId: string, path: Path, a: Attempt)
    requires LogOk(s)
    ensures LogOk(Consumed(s, runtimeId, path, a))
  {
    var s' := Consumed(s, runtimeId, path, a);
    if s'.log == s.log {
      assert s'.markers == s.markers;
    } else if !Actuates(s, runtimeId, path, a) {
      AppendOk(s, s', Departure(s, path, a));
    } else {
      ActuatedOk(s, runtimeId, path, a);
    }
  }

  /** The spool right after the delete was issued. */
  function Issued(s: Spool, id: RequestId, a: Attempt): Spool {
    s.(log := s.log + [DeleteIssued(id, a.delete == Confirmed)])
  }

  lemma ActuatedOk(s: Spool, runtimeId: string, path: Path, a: Attempt)
    requires LogOk(s) && Actuates(s, runtimeId, path, a) && a.delete != Crashed
    ensures LogOk(Consumed(s, runtimeId, path, a))
  {
    var s' := Consumed(s, runtimeId, path, a);
    var id := s.files[path].requestId;
    var issued := Issued(s, id, a);
    AppendOk(s, issued, DeleteIssued(id, a.delete == Confirmed));
    if a.delete == Confirmed && a.archives {
      assert issued.log[|s.log|] == DeleteIssued(id, true);
      var marked := issued.(markers := s.markers + {id}, log := issued.log + [Marked(id)]);
      AppendOk(issued, marked, Marked(id));
      assert s'.log == marked.log + [Departure(s, path, a)];
      AppendOk(marked, s', Departure(s, path, a));
    }
  }

  lemma {:induction false} RunOk(runtimeId: string, steps: seq<Step>)
    ensures LogOk(Run(runtimeId, steps))
  {
    if steps != [] {
      var before := Run(runtimeId, steps[..|steps| - 1]);
      RunOk(runtimeId, steps[..|steps| - 1]);
      var last := steps[|steps| - 1];
      if last.Consume? {
        ConsumeOk(before, runtimeId, last.path, last.attempt);
      }
    }
  }

  /** A marker stands only after a confirmed Pod delete for its request. */
  lemma MarkersFollowDeletes(runtimeId: string, steps: seq<Step>, k: nat)
    requires k < |Run(runtimeId, steps).log| && Run(runtimeId, steps).log[k].Marked?
    ensures ConfirmedBefore(Run(runtimeId, steps).log, k, Run(runtimeId, steps).log[k].id)
  {
    RunOk(runtimeId, steps);
  }

  // ---------------------------------------------------------------- at least once

  /** Every readable valid drop that left did so after a confirmed Pod delete for its request. */
  ghost predicate NothingLost(log: seq<Event>, runtimeId: string) {
    forall k :: 0 <= k < |log| && log[k].Left? && Valid(log[k].drop, runtimeId) ==>
      ConfirmedBefore(log, k, log[k].drop.requestId)
  }

  /** The consume takes away whatever the path holds by then. */
  predicate TakesAway(s: Spool, runtimeId: string, path: Path, a: Attempt) {
    if Actuates(s, runtimeId, path, a) then a.delete == Confirmed && a.archives
    else a.removes && (path in s.files || a.replacement.Some?)
  }

  /**
   A valid drop written over the one just read is taken away in its place,
   before any delete was confirmed for the request it carries.
   */
  ghost predicate Overtaken(s: Spool, runtimeId: string, step: Step) {
    && step.Consume? && step.attempt.replacement.Some?
    && TakesAway(s, runtimeId, step.path, step.attempt)
    && var late := step.attempt.replacement.value;
    && Valid(late, runtimeId) && !ConfirmedBefore(s.log, |s.log|, late.requestId)
    && !(Actuates(s, runtimeId, step.path, step.attempt) && s.files[step.path].requestId == late.requestId)
  }

  lemma LastDecides(log: seq<Event>, event: Event, runtimeId: string)
    ensures NothingLost(log + [event], runtimeId) <==>
            && NothingLost(log, runtimeId)
            && (event.Left? && Valid(event.drop, runtimeId) ==> ConfirmedBefore(log, |log|, event.drop.requestId))
  {
    var log' := log + [event];
    forall k | 0 <= k <= |log| && log'[k].Left? && log'[k].drop.Drop?
      ensures ConfirmedBefore(log', k, log'[k].drop.requestId) <==> ConfirmedBefore(log, k, log'[k].drop.requestId)
    {
      ConfirmedStays(log, [event], k, log'[k].drop.requestId);
    }
    assert forall k :: 0 <= k < |log| ==> log'[k] == log[k];
    assert log'[|log|] == event;
  }

  lemma LossStep(s: Spool, runtimeId: string, step: Step)
    requires LogOk(s)
    ensures NothingLost(Next(s, runtimeId, step).log, runtimeId) <==>
            NothingLost(s.log, runtimeId) && !Overtaken(s, runtimeId, step)
  {
    if step.Consume? {
      if Actuates(s, runtimeId, step.path, step.attempt) {
        LossWhenActuated(s, runtimeId, step.path, step.attempt);
      } else {
        LossWhenRemoved(s, runtimeId, step.path, step.attempt);
      }
    }
  }

  lemma LossWhenRemoved(s: Spool, runtimeId: string, path: Path, a: Attempt)
    requires LogOk(s) && !Actuates(s, runtimeId, path, a)
    ensures NothingLost(Consumed(s, runtimeId, path, a).log, runtimeId) <==>
            NothingLost(s.log, runtimeId) && !Overtaken(s, runtimeId, Consume(path, a))
  {
    LastDecides(s.log, Departure(s, path, a), runtimeId);
    if a.replacement.None? && path in s.files && a.readable && Valid(s.files[path], runtimeId) {
      MarkedWasConfirmed(s, s.files[path].requestId);
    }
  }

  lemma LossWhenActuated(s: Spool, runtimeId: string, path: Path, a: Attempt)
    requires LogOk(s) && Actuates(s, runtimeId, path, a)
    ensures NothingLost(Consumed(s, runtimeId, path, a).log, runtimeId) <==>
            NothingLost(s.log, runtimeId) && !Overtaken(s, runtimeId, Consume(path, a))
  {
    var id := s.files[path].requestId;
    var issued := Issued(s, id, a).log;
    LastDecides(s.log, DeleteIssued(id, a.delete == Confirmed), runtimeId);
    if a.delete == Confirmed && a.archives {
      var marked := issued + [Marked(id)];
      var departure := Departure(s, path, a);
      LastDecides(issued, Marked(id), runtimeId);
      LastDecides(marked, departure, runtimeId);
      assert Consumed(s, runtimeId, path, a).log == marked + [departure];
      if departure.drop.Drop? {
        ConfirmedAfterDelete(s.log, id, departure.drop.requestId);
      }
    }
  }

  lemma ConfirmedAfterDelete(log: seq<Event>, id: RequestId, other: RequestId)
    ensures var marked := log + [DeleteIssued(id, true)] + [Marked(id)];
            ConfirmedBefore(marked, |marked|, other) <==> other == id || ConfirmedBefore(log, |log|, other)
  {
    var marked := log + [DeleteIssued(id, true)] + [Marked(id)];
    assert marked[|log|] == DeleteIssued(id, true) && marked[|log| + 1] == Marked(id);
    assert forall j :: 0 <= j < |log| ==> marked[j] == log[j];
    if ConfirmedBefore(log, |log|, other) {
      var j :| 0 <= j < |log| && log[j] == DeleteIssued(other, true);
      assert marked[j] == DeleteIssued(other, true);
    }
  }

  /** Step i of a run loses a drop. */
  ghost predicate OvertakenAt(runtimeId: string, steps: seq<Step>, i: nat)
    requires i < |steps|
  {
    Overtaken(Run(runtimeId, steps[..i]), runtimeId, steps[i])
  }

  /**
   At least once, exactly: over a run every readable valid drop leaves only
   after a confirmed delete for its request, if and only if no consume takes
   away a valid drop that was written over the one it had read.
   */
  lemma {:induction false} NeverLostExactly(runtimeId: string, steps: seq<Step>)
    ensures NothingLost(Run(runtimeId, steps).log, runtimeId) <==>
            forall i: nat :: i < |steps| ==> !OvertakenAt(runtimeId, steps, i)
  {
    if steps != [] {
      var n := |steps| - 1;
      var before := steps[..n];
      NeverLostExactly(runtimeId, before);
      RunOk(runtimeId, before);
      LossStep(Run(runtimeId, before), runtimeId, steps[n]);
      assert OvertakenAt(runtimeId, steps, n) <==> Overtaken(Run(runtimeId, before), runtimeId, steps[n]);
      forall i: nat | i < n ensures OvertakenAt(runtimeId, before, i) <==> OvertakenAt(runtimeId, steps, i) {
        assert before[..i] == steps[..i];
      }
    }
  }

  /** A path that is not written again while it is being consumed loses nothing. */
  lemma NeverLost(runtimeId: string, steps: seq<Step>)
    requires forall i :: 0 <= i < |steps| ==> steps[i].Consume? ==> steps[i].attempt.replacement.None?
    ensures NothingLost(Run(runtimeId, steps).log, runtimeId)
  {
    NeverLostExactly(runtimeId, steps);
  }

  /** A valid drop that replaces another one between read and rename is archived as the other one's marker. */
  lemma ReplacedDropIsLost(path: Path, first: Drop, late: Drop, runtimeId: string)
    requires Valid(first, runtimeId) && Valid(late, runtimeId) && first.requestId != late.requestId
    ensures var steps := [Arrive(path, first), Consume(path, Smooth.(replacement := Some(late)))];
            !NothingLost(Run(runtimeId, steps).log, runtimeId)
  {
    var steps := [Arrive(path, first), Consume(path, Smooth.(replacement := Some(late)))];
    assert steps[..1][..0] == [] && steps[..1][0] == steps[0];
    assert Run(runtimeId, steps[..1][..0]) == EmptySpool;
    assert Run(runtimeId, steps[..1]) == EmptySpool.(files := map[path := first]);
    assert OvertakenAt(runtimeId, steps, 1);
    NeverLostExactly(runtimeId, steps);
  }

  /**
   Whatever leaves is logged: a consume changes no path but its own, and takes
   that one away exactly if it logs, last, what it held.
   */
  lemma DeparturesAreLogged(s: Spool, runtimeId: string, path: Path, a: Attempt)
    ensures var s' := Consumed(s, runtimeId, path, a);
            var held := if a.replacement.Some? then s.files[path := a.replacement.value] else s.files;
            && s.log <= s'.log
            && (s'.files == held || (path in held && s'.files == held - {path}))
            && (path in held && path !in s'.files ==>
                  && s'.log != s.log
                  && var last := s'.log[|s'.log| - 1];
                     last == LeftUnread(path) || last == Left(path, held[path]))
  {
  }

  /** The fields a drop needs to have the Pod of this runtime deleted for a request. */
  predicate AsksRestart(d: Drop, runtimeId: string, id: RequestId) {
    && d.Drop? && d.schemaVersion == 1 && d.kind == "restart" && d.runtimeId == runtimeId
    && d.requestId == id && id != "" && forall i :: 0 <= i < |id| ==> id[i] != '/' && id[i] != '\\'
  }

  /** A drop is valid for the relay exactly if it asks for a restart of its runtime. */
  lemma ValidExactly(d: Drop, runtimeId: string)
    ensures Valid(d, runtimeId) <==> d.Drop? && AsksRestart(d, runtimeId, d.requestId)
  {
  }

  /** The drop was put into the spool by one of the steps. */
  ghost predicate Arrived(steps: seq<Step>, d: Drop) {
    exists i :: 0 <= i < |steps| && Brings(steps[i], d)
  }

  predicate Brings(step: Step, d: Drop) {
    match step
    case Arrive(_, drop) => drop == d
    case Consume(_, attempt) => attempt.replacement == Some(d)
  }

  lemma ArrivedLater(steps: seq<Step>, n: nat, d: Drop)
    requires n <= |steps| && Arrived(steps[..n], d)
    ensures Arrived(steps, d)
  {
    var i :| 0 <= i < n && Brings(steps[..n][i], d);
    assert Brings(steps[i], d);
  }

  lemma {:induction false} FilesArrived(runtimeId: string, steps: seq<Step>, path: Path)
    requires path in Run(runtimeId, steps).files
    ensures Arrived(steps, Run(runtimeId, steps).files[path])
  {
    var n := |steps| - 1;
    var before, step := Run(runtimeId, steps[..n]), steps[n];
    var d := Run(runtimeId, steps).files[path];
    if path in before.files && before.files[path] == d {
      FilesArrived(runtimeId, steps[..n], path);
      ArrivedLater(steps, n, d);
    } else {
      assert Brings(step, d);
    }
  }

  /**
   Every Pod delete was asked for: by a drop that arrived, of this schema and kind,
   for this runtime and that request.
   */
  lemma {:induction false} DeletesAreAsked(runtimeId: string, steps: seq<Step>, id: RequestId, confirmed: bool)
    requires DeleteIssued(id, confirmed) in Run(runtimeId, steps).log
    ensures exists d :: Arrived(steps, d) && AsksRestart(d, runtimeId, id)
  {
    var n := |steps| - 1;
    var before, step := Run(runtimeId, steps[..n]), steps[n];
    if DeleteIssued(id, confirmed) in before.log {
      DeletesAreAsked(runtimeId, steps[..n], id, confirmed);
      var d :| Arrived(steps[..n], d) && AsksRestart(d, runtimeId, id);
      ArrivedLater(steps, n, d);
    } else {
      DeleteComesFrom(before, runtimeId, step, id, confirmed);
      FilesArrived(runtimeId, steps[..n], step.path);
      ArrivedLater(steps, n, before.files[step.path]);
    }
  }

  lemma DeleteComesFrom(s: Spool, runtimeId: string, step: Step, id: RequestId, confirmed: bool)
    requires DeleteIssued(id, confirmed) in Next(s, runtimeId, step).log && DeleteIssued(id, confirmed) !in s.log
    ensures step.Consume? && step.path in s.files && AsksRestart(s.files[step.path], runtimeId, id)
  {
  }

  // ---------------------------------------------------------------- at most once

  ghost predicate NoDeleteAfterMark(log: seq<Event>) {
    forall i, k :: 0 <= i < k < |log| && log[i].Marked? && log[k].DeleteIssued? ==> log[k].id != log[i].id
  }

  /**
   A readable valid drop whose request is marked, while the marker cannot be looked
   up and the relay lives to go on.
   */
  predicate MarkerMissed(s: Spool, runtimeId: string, step: Step) {
    && step.Consume? && Actuates(s, runtimeId, step.path, step.attempt) && step.attempt.delete != Crashed
    && s.files[step.path].requestId in s.markers
  }

  lemma DedupeStep(s: Spool, runtimeId: string, step: Step)
    requires LogOk(s)
    ensures NoDeleteAfterMark(Next(s, runtimeId, step).log) <==>
            NoDeleteAfterMark(s.log) && !MarkerMissed(s, runtimeId, step)
  {
    var log' := Next(s, runtimeId, step).log;
    assert s.log <= log';
    if !NoDeleteAfterMark(s.log) {
      var i, k :| 0 <= i < k < |s.log| && s.log[i].Marked? && s.log[k].DeleteIssued? && s.log[k].id == s.log[i].id;
      assert log'[i] == s.log[i] && log'[k] == s.log[k];
    } else if MarkerMissed(s, runtimeId, step) {
      var id := s.files[step.path].requestId;
      var i :| 0 <= i < |s.log| && s.log[i] == Marked(id);
      assert log'[i] == s.log[i] && log'[|s.log|].DeleteIssued? && log'[|s.log|].id == id;
    } else {
      forall i, k | 0 <= i < k < |log'| && log'[i].Marked? && log'[k].DeleteIssued? ensures log'[k].id != log'[i].id {
        if k < |s.log| {
          assert log'[i] == s.log[i] && log'[k] == s.log[k];
        } else {
          assert k == |s.log| && log'[i] == s.log[i];
          assert Marked(s.log[i].id) in s.log;
        }
      }
    }
  }

  /** Step i of a run misses a marker. */
  predicate MissedAt(runtimeId: string, steps: seq<Step>, i: nat)
    requires i < |steps|
  {
    MarkerMissed(Run(runtimeId, steps[..i]), runtimeId, steps[i])
  }

  /**
   Deduplication, exactly: over a run, no delete for a request follows its
   marker if and only if no consume missed a marker it should have seen.
   */
  lemma {:induction false} DedupeExactly(runtimeId: string, steps: seq<Step>)
    ensures NoDeleteAfterMark(Run(runtimeId, steps).log) <==>
            forall i: nat :: i < |steps| ==> !MissedAt(runtimeId, steps, i)
  {
    if steps != [] {
      var n := |steps| - 1;
      var before := steps[..n];
      DedupeExactly(runtimeId, before);
      RunOk(runtimeId, before);
      DedupeStep(Run(runtimeId, before), runtimeId, steps[n]);
      assert MissedAt(runtimeId, steps, n) <==> MarkerMissed(Run(runtimeId, before), runtimeId, steps[n]);
      forall i: nat | i < n ensures MissedAt(runtimeId, before, i) <==> MissedAt(runtimeId, steps, i) {
        assert before[..i] == steps[..i];
      }
    }
  }

  /** The marker is looked up in every consume, so no delete follows it. */
  lemma AtMostOnceAfterMark(runtimeId: string, steps: seq<Step>)
    requires forall i :: 0 <= i < |steps| ==> steps[i].Consume? ==> steps[i].attempt.statAnswers
    ensures NoDeleteAfterMark(Run(runtimeId, steps).log)
  {
    DedupeExactly(runtimeId, steps);
  }

  /**
   A marker that cannot be looked up does repeat the delete: the same drop
   twice, the second time with a failing lookup.
   */
  lemma MissedMarkerRepeats(path: Path, d: Drop, runtimeId: string)
    requires Valid(d, runtimeId)
    ensures var unanswered := Smooth.(statAnswers := false);
            var steps := [Arrive(path, d), Consume(path, Smooth), Arrive(path, d), Consume(path, unanswered)];
            !NoDeleteAfterMark(Run(runtimeId, steps).log)
  {
    var unanswered := Smooth.(statAnswers := false);
    var steps := [Arrive(path, d), Consume(path, Smooth), Arrive(path, d), Consume(path, unanswered)];
    assert steps[..3][..2] == steps[..2] && steps[..2][..1] == steps[..1] && steps[..1][..0] == [];
    assert Run(runtimeId, steps[..1]) == EmptySpool.(files := map[path := d]) by {
      assert Run(runtimeId, steps[..0]) == EmptySpool && steps[..1][0] == steps[0];
    }
    assert Run(runtimeId, steps[..2]).markers == {d.requestId} by {
      assert steps[..2][1] == steps[1] && Smooth.delete == Confirmed;
    }
    assert steps[..3][2] == steps[2];
    assert MissedAt(runtimeId, steps, 3);
    DedupeExactly(runtimeId, steps);
  }

  // ---------------------------------------------------------------- a pass without failures

  function DeletesFor(log: seq<Event>, id: RequestId): nat {
    if log == [] then 0
    else
      var last := log[|log| - 1];
      DeletesFor(log[..|log| - 1], id) + if last.DeleteIssued? && last.id == id then 1 else 0
  }

  /** Some valid drop among the paths asks for this request. */
  ghost predicate Asked(files: map<Path, Drop>, matches: seq<Path>, runtimeId: string, id: RequestId) {
    exists i :: 0 <= i < |matches| && AsksFor(files, matches[i], runtimeId, id)
  }

  predicate AsksFor(files: map<Path, Drop>, path: Path, runtimeId: string, id: RequestId) {
    path in files && Valid(files[path], runtimeId) && files[path].requestId == id
  }

  lemma {:induction false} DeletesAppend(log: seq<Event>, more: seq<Event>, id: RequestId)
    ensures DeletesFor(log + more, id) == DeletesFor(log, id) + DeletesFor(more, id)
    decreases |more|
  {
    if more == [] {
      assert log + more == log;
    } else {
      var n := |more| - 1;
      DeletesAppend(log, more[..n], id);
      assert (log + more)[..|log + more| - 1] == log + more[..n];
    }
  }

  /** One smooth consume takes its drop out, and deletes exactly for a valid, unmarked request. */
  lemma SmoothConsume(s: Spool, runtimeId: string, path: Path, id: RequestId)
    requires path in s.files
    ensures var s' := Consumed(s, runtimeId, path, Smooth);
            var mine := AsksFor(s.files, path, runtimeId, id);
            && s'.files == s.files - {path}
            && (id in s'.markers <==> id in s.markers || mine)
            && DeletesFor(s'.log, id) == DeletesFor(s.log, id) + if mine && id !in s.markers then 1 else 0
  {
    var s' := Consumed(s, runtimeId, path, Smooth);
    var drop := s.files[path];
    if Valid(drop, runtimeId) && drop.requestId !in s.markers {
      var more := [DeleteIssued(drop.requestId, true), Marked(drop.requestId), Left(path, drop)];
      assert s'.log == s.log + more;
      DeletesAppend(s.log, more, id);
      assert more[..2][..1] == [DeleteIssued(drop.requestId, true)];
      assert DeletesFor(more[..2][..1], id) == if drop.requestId == id then 1 else 0;
      assert DeletesFor(more[..2], id) == DeletesFor(more[..2][..1], id);
    } else {
      assert s'.log == s.log + [Left(path, drop)];
      DeletesAppend(s.log, [Left(path, drop)], id);
    }
  }

  function Paths(matches: seq<Path>): set<Path> {
    set p | p in matches
  }

  /**
   A pass in which nothing fails consumes every drop it found, with exactly one
   delete for each request that was asked for and not yet marked.
   */
  lemma {:induction false} SmoothPass(s: Spool, runtimeId: string, matches: seq<Path>, id: RequestId)
    requires Distinct(matches) && forall i :: 0 <= i < |matches| ==> matches[i] in s.files
    ensures var s' := Passed(s, runtimeId, matches, _ => Smooth);
            var asked := Asked(s.files, matches, runtimeId, id);
            && s'.files == s.files - Paths(matches)
            && (id in s'.markers <==> id in s.markers || asked)
            && DeletesFor(s'.log, id) == DeletesFor(s.log, id) + if id !in s.markers && asked then 1 else 0
    decreases |matches|
  {
    if matches != [] {
      var n := |matches| - 1;
      SmoothPass(s, runtimeId, matches[..n], id);
      var before := Passed(s, runtimeId, matches[..n], _ => Smooth);
      var path := matches[n];
      assert path !in matches[..n];
      assert path in before.files && before.files[path] == s.files[path];
      SmoothConsume(before, runtimeId, path, id);
      PathsLast(matches);
      AskedLast(s.files, matches, runtimeId, id);
    }
  }

  lemma PathsLast(matches: seq<Path>)
    requires matches != []
    ensures Paths(matches) == Paths(matches[..|matches| - 1]) + {matches[|matches| - 1]}
  {
    assert matches == matches[..|matches| - 1] + [matches[|matches| - 1]];
  }

  lemma AskedLast(files: map<Path, Drop>, matches: seq<Path>, runtimeId: string, id: RequestId)
    requires matches != []
    ensures var n := |matches| - 1;
            Asked(files, matches, runtimeId, id) <==>
            Asked(files, matches[..n], runtimeId, id) || AsksFor(files, matches[n], runtimeId, id)
  {
    var n := |matches| - 1;
    assert forall i :: 0 <= i < n ==> matches[..n][i] == matches[i];
  }

  /**
   The pass over what the scan lists leaves no drop file behind, with exactly
   one delete for each request that some valid drop file asked for and that
   was not marked before.
   */
  lemma SmoothPassEmpties(s: Spool, runtimeId: string, matches: seq<Path>, id: RequestId)
    requires Lists(matches, s.files)
    ensures var s' := Passed(s, runtimeId, matches, _ => Smooth);
            var asked := exists p :: p in s.files && IsDrop(p) && AsksFor(s.files, p, runtimeId, id);
            && (forall p :: p in s'.files <==> p in s.files && !IsDrop(p))
            && DeletesFor(s'.log, id) == DeletesFor(s.log, id) + if id !in s.markers && asked then 1 else 0
  {
    SmoothPass(s, runtimeId, matches, id);
    if p :| p in s.files && IsDrop(p) && AsksFor(s.files, p, runtimeId, id) {
      var i :| 0 <= i < |matches| && matches[i] == p;
      assert AsksFor(s.files, matches[i], runtimeId, id);
    }
    if Asked(s.files, matches, runtimeId, id) {
      var i :| 0 <= i < |matches| && AsksFor(s.files, matches[i], runtimeId, id);
      assert matches[i] in matches;
    }
  }
}
