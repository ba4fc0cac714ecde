/** A paced zone release: frozen members, a cursor, an approved cap and a limit on punches waiting for Oracle. */
module BacklogRelease {
  import opened BacklogMembers

  const REHOLD_ATTEMPTS := 3

  datatype Status = Releasing | StoppedFollowing | Completed | Stopped

  datatype ItemStatus = WaitingOracle | Reheld | Delivered | NeedsReview | KeptHeld

  /** A released punch followed to Oracle; `checked` is the roster snapshot of its last check. */
  datatype Item = Item(event: int, status: ItemStatus, failedChecks: nat, checked: int)

  datatype Fate = Released | Kept | Left | Gone

  datatype Passed = Passed(event: int, fate: Fate)

  datatype Job = Job(
    ranges: seq<Range>, until: int, requested: nat, inFlight: nat, batchSize: nat, status: Status, cursor: int,
    eligible: nat, skipped: nat, excluded: nat, review: nat, succeeded: nat, failed: nat, identityHeld: nat)

  /** `log` is what the audit rows name: every member passed, in order, and what became of it. */
  datatype Run = Run(job: Job, items: seq<Item>, log: seq<Passed>)

  /** What a release tick finds for a member. Three of these stop the batch before the member. */
  datatype Sees = NotHeld | Unavailable | RosterNotReady | Passes(snapshot: int) | OtherProof | RosterReplaced | Fails

  /** What a tick finds for a released punch. */
  datatype Follows = Acknowledged | InQueue | Elsewhere | HeldAgain(check: HeldCheck, snapshot: int)

  datatype HeldCheck =
    | TerminalChanged | NotReady | Busy | NewRoster | PassesAgain | LeftToSnapshot | Replaced | FailsAgain

  predicate IsOpen(it: Item) {
    it.status == WaitingOracle || it.status == Reheld
  }

  /** How many of the first n items are open. */
  function OpenTo(items: seq<Item>, n: nat): nat
    requires n <= |items|
  {
    if n == 0 then 0 else OpenTo(items, n - 1) + if IsOpen(items[n - 1]) then 1 else 0
  }

  function Open(items: seq<Item>): nat {
    OpenTo(items, |items|)
  }

  function CountTo(items: seq<Item>, n: nat, s: ItemStatus): nat
    requires n <= |items|
  {
    if n == 0 then 0 else CountTo(items, n - 1, s) + if items[n - 1].status == s then 1 else 0
  }

  function FatesTo(log: seq<Passed>, n: nat, f: Fate): nat
    requires n <= |log|
  {
    if n == 0 then 0 else FatesTo(log, n - 1, f) + if log[n - 1].fate == f then 1 else 0
  }

  function Fates(log: seq<Passed>, f: Fate): nat {
    FatesTo(log, |log|, f)
  }

  // ---- One batch ----

  predicate Stops(v: Sees) {
    v.Unavailable? || v.RosterNotReady? || v.RosterReplaced?
  }

  function FateOf(v: Sees): Fate
    requires !Stops(v)
  {
    match v case NotHeld => Gone case Passes(_) => Released case OtherProof => Left case Fails => Kept
  }

  /** The members passed: all of them up to the first the tick cannot judge. */
  function Handled(candidates: seq<int>, look: int -> Sees, n: nat): (out: seq<Passed>)
    requires n <= |candidates|
    ensures |out| <= n && forall i :: 0 <= i < |out| ==> out[i].event == candidates[i]
  {
    if n == 0 then []
    else
      var before := Handled(candidates, look, n - 1);
      if |before| < n - 1 || Stops(look(candidates[n - 1])) then before
      else before + [Passed(candidates[n - 1], FateOf(look(candidates[n - 1])))]
  }

  /** An item to follow for each punch released among the first n. */
  function NewItems(handled: seq<Passed>, look: int -> Sees, n: nat): seq<Item>
    requires n <= |handled|
  {
    if n == 0 then []
    else
      var last := handled[n - 1];
      NewItems(handled, look, n - 1)
      + if last.fate == Released && look(last.event).Passes? then
          [Item(last.event, WaitingOracle, 0, look(last.event).snapshot)]
        else []
  }

  function Min(a: int, b: int): int { if a < b then a else b }

  function Max(a: int, b: int): int { if a < b then b else a }

  function Budget(run: Run, limit: nat): int {
    var job := run.job;
    Min(Max(1, Min(if limit > 0 then limit else job.batchSize, 200)),
        Min(job.inFlight - Open(run.items), job.requested - job.eligible))
  }

  function Candidates(run: Run, limit: nat): seq<int> {
    if Budget(run, limit) <= 0 then [] else Take(After(Expand(run.job.ranges), run.job.cursor), Budget(run, limit))
  }

  function WithHandled(run: Run, handled: seq<Passed>, look: int -> Sees): Run {
    var job := run.job;
    Run(job.(cursor := if handled == [] then job.cursor else handled[|handled| - 1].event,
             eligible := job.eligible + Fates(handled, Released), skipped := job.skipped + Fates(handled, Kept),
             excluded := job.excluded + Fates(handled, Left), review := job.review + Fates(handled, Gone)),
        run.items + NewItems(handled, look, |handled|), run.log + handled)
  }

  /** `_release_batch`. */
  function Batched(run: Run, look: int -> Sees, limit: nat): Run {
    var job := run.job;
    if job.cursor >= job.until then run
    else if job.eligible >= job.requested then run.(job := job.(cursor := job.until))
    else if Budget(run, limit) <= 0 then run
    else if Candidates(run, limit) == [] then run.(job := job.(cursor := job.until))
    else WithHandled(run, Handled(Candidates(run, limit), look, |Candidates(run, limit)|), look)
  }

  // ---- Following released punches ----

  function Follow(it: Item, seen: Follows): Item {
    match seen
    case Acknowledged => it.(status := Delivered)
    case InQueue => it.(status := WaitingOracle)
    case Elsewhere => it.(status := NeedsReview)
    case HeldAgain(check, snapshot) =>
      if check == TerminalChanged then it.(status := KeptHeld)
      else if check == NotReady || it.checked == snapshot || check in {Busy, NewRoster, Replaced} then
        it.(status := Reheld)
      else if check == PassesAgain then it.(status := WaitingOracle, checked := snapshot)
      else if check == LeftToSnapshot then it.(status := Reheld, checked := snapshot)
      else it.(status := if it.failedChecks + 1 >= REHOLD_ATTEMPTS then KeptHeld else Reheld,
               failedChecks := it.failedChecks + 1, checked := snapshot)
  }

  /** The first `limit` open items are looked at; the rest and the closed ones stay. */
  function FollowAt(items: seq<Item>, see: int -> Follows, limit: nat, i: nat): Item
    requires i < |items|
  {
    if IsOpen(items[i]) && OpenTo(items, i) < limit then Follow(items[i], see(items[i].event)) else items[i]
  }

  function Followed(items: seq<Item>, see: int -> Follows, limit: nat): seq<Item> {
    seq(|items|, i requires 0 <= i < |items| => FollowAt(items, see, limit, i))
  }

  /** How many of the first n items close with this status. */
  function Closing(items: seq<Item>, see: int -> Follows, limit: nat, n: nat, s: ItemStatus): nat
    requires n <= |items|
  {
    if n == 0 then 0
    else
      Closing(items, see, limit, n - 1, s)
      + if IsOpen(items[n - 1]) && FollowAt(items, see, limit, n - 1).status == s then 1 else 0
  }

  /** `_follow_up`: closing items are counted as delivered, needing review, or kept held. */
  function FollowedUp(run: Run, see: int -> Follows): Run {
    var job, limit, n := run.job, run.job.inFlight + run.job.batchSize, |run.items|;
    run.(items := Followed(run.items, see, limit),
         job := job.(succeeded := job.succeeded + Closing(run.items, see, limit, n, Delivered),
                     failed := job.failed + Closing(run.items, see, limit, n, NeedsReview),
                     identityHeld := job.identityHeld + Closing(run.items, see, limit, n, KeptHeld)))
  }

  // ---- One tick, and the owner's stop ----

  predicate IsFinished(run: Run) {
    (run.job.status == StoppedFollowing || run.job.cursor >= run.job.until) && Open(run.items) == 0
  }

  function Closed(run: Run): Run {
    if IsFinished(run) then
      run.(job := run.job.(status := if run.job.status == StoppedFollowing then Stopped else Completed))
    else run
  }

  function Advanced(run: Run, look: int -> Sees, see: int -> Follows, limit: nat): Run {
    if run.job.status != Releasing && run.job.status != StoppedFollowing then run
    else
      var followed := FollowedUp(run, see);
      Closed(if run.job.status == Releasing then Batched(followed, look, limit) else followed)
  }

  function StoppedBy(run: Run): Run {
    if run.job.status != Releasing then run
    else run.(job := run.job.(status := if Open(run.items) > 0 then StoppedFollowing else Stopped))
  }

  class ZoneRelease {
    var job: Job
    var items: seq<Item>
    var log: seq<Passed>

    ghost function State(): Run
      reads this
    {
      Run(job, items, log)
    }

    method CountOpen() returns (n: nat)
      ensures n == Open(items)
    {
      n := 0;
      for i := 0 to |items|
        invariant n == OpenTo(items, i)
      {
        if IsOpen(items[i]) { n := n + 1; }
      }
    }

    method FollowUp(see: int -> Follows)
      modifies this`job, this`items
      ensures State() == FollowedUp(old(State()), see)
    {
      var done, delivered, review, kept := FollowEach(items, see, job.inFlight + job.batchSize);
      items := done;
      job := job.(succeeded := job.succeeded + delivered, failed := job.failed + review,
                  identityHeld := job.identityHeld + kept);
    }

    method ReleaseBatch(look: int -> Sees, limit: nat)
      modifies this
      ensures State() == Batched(old(State()), look, limit)
    {
      if job.cursor >= job.until { return; }
      if job.eligible >= job.requested {
        job := job.(cursor := job.until);
        return;
      }
      var budget := RemainingBudget(limit);
      if budget <= 0 { return; }
      var candidates := MembersAfter(job.ranges, job.cursor, budget);
      if candidates == [] {
        job := job.(cursor := job.until);
        return;
      }
      var handled := Evaluate(candidates, look);
      Record(handled, look);
    }

    method RemainingBudget(limit: nat) returns (budget: int)
      ensures budget == Budget(State(), limit)
    {
      var open := CountOpen();
      budget := Min(Max(1, Min(if limit > 0 then limit else job.batchSize, 200)),
          Min(job.inFlight - open, job.requested - job.eligible));
    }

    /** Moves the cursor past the members handled and counts each of them. */
    method Record(handled: seq<Passed>, look: int -> Sees)
      modifies this
      ensures State() == WithHandled(old(State()), handled, look)
    {
      if handled != [] { job := job.(cursor := handled[|handled| - 1].event); }
      job := job.(eligible := job.eligible + Fates(handled, Released), skipped := job.skipped + Fates(handled, Kept),
                  excluded := job.excluded + Fates(handled, Left), review := job.review + Fates(handled, Gone));
      items, log := items + NewItems(handled, look, |handled|), log + handled;
    }

    method AdvanceOnce(look: int -> Sees, see: int -> Follows, limit: nat)
      modifies this
      ensures State() == Advanced(old(State()), look, see, limit)
    {
      if job.status != Releasing && job.status != StoppedFollowing { return; }
      FollowUp(see);
      if job.status == Releasing { ReleaseBatch(look, limit); }
      var open := CountOpen();
      if (job.status == StoppedFollowing || job.cursor >= job.until) && open == 0 {
        job := job.(status := if job.status == StoppedFollowing then Stopped else Completed);
      }
    }

    method Stop()
      modifies this`job
      ensures State() == StoppedBy(old(State()))
    {
      if job.status != Releasing { return; }
      var following := CountOpen();
      job := job.(status := if following > 0 then StoppedFollowing else Stopped);
    }
  }

  method FollowEach(items: seq<Item>, see: int -> Follows, limit: nat)
    returns (done: seq<Item>, delivered: nat, review: nat, kept: nat)
    ensures done == Followed(items, see, limit)
    ensures delivered == Closing(items, see, limit, |items|, Delivered)
    ensures review == Closing(items, see, limit, |items|, NeedsReview)
    ensures kept == Closing(items, see, limit, |items|, KeptHeld)
  {
    done, delivered, review, kept := [], 0, 0, 0;
    var looked := 0;
    for n := 0 to |items|
      invariant |done| == n && looked == OpenTo(items, n)
      invariant forall i :: 0 <= i < n ==> done[i] == FollowAt(items, see, limit, i)
      invariant delivered == Closing(items, see, limit, n, Delivered)
      invariant review == Closing(items, see, limit, n, NeedsReview)
      invariant kept == Closing(items, see, limit, n, KeptHeld)
    {
      var item := items[n];
      if IsOpen(item) {
        if looked < limit {
          item := Follow(item, see(item.event));
          if item.status == Delivered { delivered := delivered + 1; }
          if item.status == NeedsReview { review := review + 1; }
          if item.status == KeptHeld { kept := kept + 1; }
        }
        looked := looked + 1;
      }
      done := done + [item];
    }
  }

  method Evaluate(candidates: seq<int>, look: int -> Sees) returns (handled: seq<Passed>)
    ensures handled == Handled(candidates, look, |candidates|)
  {
    handled := [];
    for n := 0 to |candidates|
      invariant handled == Handled(candidates, look, n) && |handled| == n
    {
      var sees := look(candidates[n]);
      if Stops(sees) {
        HandledStays(candidates, look, n + 1, |candidates|);
        return;
      }
      handled := handled + [Passed(candidates[n], FateOf(sees))];
    }
  }

  lemma {:induction false} HandledStays(candidates: seq<int>, look: int -> Sees, n: nat, m: nat)
    requires n <= m <= |candidates| && |Handled(candidates, look, n)| < n
    ensures Handled(candidates, look, m) == Handled(candidates, look, n)
  {
    if n < m {
      HandledStays(candidates, look, n, m - 1);
    }
  }
}
