/**
 The identity part of a direct approval: which CNIC an administrator may send,
 what the saved approval accepted, and how queueing and delivery re-derive it.
 */
module DirectApproval {
  import opened Options
  import opened IdentityRecords
  import opened PunchTimeIdentity

  datatype Choice = PunchTime | Current

  datatype Source = SavedPunch | SyncedUser | PunchTimeHistory

  datatype Roster = UnknownUser | CnicMissing | Holder(user: User, current: string)

  /** Checks that do not look at identity: each only refuses. */
  datatype Guards = Guards(blocked: bool, timeRefused: bool, newestOnly: bool, nameMissing: bool, autoReleaseSoon: bool)

  /**
   What ADD reads about one punch at one moment: `identity` is the classification
   of `evidence`, `heldByOthers` are the CNICs of other active users, `readable` the
   intervals whose retained CNIC decrypts.
   */
  datatype View = View(event: Event, roster: Roster, saved: Option<string>, evidence: Evidence, identity: Identity,
                       heldByOthers: set<string>, readable: set<int>, tolerance: nat, guards: Guards)

  ghost predicate Classified(v: View) {
    v.roster.Holder? ==>
      v.identity == Identify(v.event, Some(v.roster.user), v.roster.current, v.evidence, v.tolerance)
  }

  datatype Refusal =
    | NoUser | NoCnic | DuplicateUnresolved | TooManyRecords | CnicConflict | ChoiceRequired | CnicUnreadable
    | SourceChanged | EvidenceDiffers | ChoiceStale | HeldByOther | Blocked | TimeRefused | NewestOnly
    | NameMissing | AutoReleasePending

  datatype Resolution =
    | Refused(why: Refusal)
    | Resolved(user: User, current: string, sent: string, source: Source, identity: Option<Identity>,
               choice: Option<Choice>, held: bool)

  datatype Token = CnicToken(hash: string) | UnknownHolderToken | SignalToken(signal: Signal) | HeldToken

  /** What an item or decision saves of the identity it approved. */
  datatype Proof = Proof(source: Source, userKey: string, currentHash: string, choice: Option<Choice>,
                         sent: string, tokens: set<Token>)

  /** The content of the evidence digest an administrator's choice is bound to. */
  datatype Shown = Shown(event: int, userKey: string, current: string, state: State, signals: set<Signal>,
                         hashes: set<string>, unknownHolder: bool, cnic: Option<string>, interval: Option<int>,
                         basis: Basis, position: Position, choices: set<Choice>, held: bool)

  datatype Request = Request(choice: Option<Choice>, shown: Option<Shown>, heldConfirmed: bool, sendNow: bool)

  function ChoicesFor(id: Identity): set<Choice> {
    match id.state
    case Differs => if id.continuity then {PunchTime, Current} else {PunchTime}
    case ChangedNearPunch =>
      (if id.interval.Some? then {PunchTime} else {}) + (if id.currentNearby then {Current} else {})
    case Ambiguous => {Current}
    case NoRecord => {Current}
    case MatchesCurrent => {}
    case Conflict => {}
  }

  function ContradictionTokens(id: Identity, sent: string): set<Token> {
    (set h | h in id.hashes && h != sent :: CnicToken(h))
    + (if id.unknownHolder then {UnknownHolderToken} else {})
    + (set s | s in id.signals && s in REFUSING_SIGNALS :: SignalToken(s))
  }

  function ApprovalTokens(id: Identity, sent: string, held: bool): set<Token> {
    ContradictionTokens(id, sent) + (if held then {HeldToken} else {})
  }

  /** Another active user holds the CNIC the records name and offer. */
  predicate HeldElsewhere(v: View) {
    v.identity.cnic.Some? && PunchTime in ChoicesFor(v.identity) && v.identity.cnic.value in v.heldByOthers
  }

  function PunchTimeResolution(v: View, interval: Option<Record>, choice: Option<Choice>, held: bool): Resolution
    requires v.roster.Holder?
  {
    if interval.None? || interval.value.id !in v.readable then Refused(CnicUnreadable)
    else Resolved(v.roster.user, v.roster.current, interval.value.cnic, PunchTimeHistory, Some(v.identity), choice,
        held)
  }

  function Resolve(v: View, choice: Option<Choice>): Resolution {
    match v.roster
    case UnknownUser => Refused(NoUser)
    case CnicMissing => Refused(NoCnic)
    case Holder(user, current) =>
      if v.saved.Some? then Resolved(user, current, v.saved.value, SavedPunch, None, None, false)
      else
        var id := v.identity;
        if id.state == MatchesCurrent then
          Resolved(user, current, current, SyncedUser, Some(id), choice, HeldElsewhere(v))
        else if id.state == Conflict then
          Refused(if ConflictUnresolved in id.signals then DuplicateUnresolved
                  else if RecordsTruncated in id.signals then TooManyRecords else CnicConflict)
        else if choice == Some(PunchTime) && PunchTime in ChoicesFor(id) then
          PunchTimeResolution(v, id.interval, choice, HeldElsewhere(v))
        else if choice == Some(Current) && Current in ChoicesFor(id) then
          Resolved(user, current, current, SyncedUser, Some(id), choice, HeldElsewhere(v))
        else Refused(ChoiceRequired)
  }

  /** None where no identity was classified: no single user, or a CNIC saved with the punch. */
  function EvidenceShown(v: View): Option<Shown> {
    if !v.roster.Holder? || v.saved.Some? then None
    else
      var id := v.identity;
      Some(Shown(v.event.id, v.roster.user.key, v.roster.current, id.state, id.signals, id.hashes, id.unknownHolder,
                 id.cnic, if id.interval.Some? then Some(id.interval.value.id) else None, id.basis, id.position,
                 ChoicesFor(id), HeldElsewhere(v)))
  }

  /** `assess_many` for one punch; `bound` is false in a preview, where no choice is bound to evidence. */
  function Assess(v: View, q: Request, bound: bool): Resolution {
    var r := Resolve(v, q.choice);
    if v.guards.blocked then Refused(Blocked)
    else if v.guards.timeRefused then Refused(TimeRefused)
    else if bound && q.choice.Some? && q.shown != EvidenceShown(v) then Refused(ChoiceStale)
    else if v.guards.newestOnly then Refused(NewestOnly)
    else if r.Refused? then r
    else if r.source == PunchTimeHistory && r.held && !q.heldConfirmed then Refused(HeldByOther)
    else if r.source == PunchTimeHistory && v.guards.nameMissing then Refused(NameMissing)
    else if v.guards.autoReleaseSoon && !q.sendNow then Refused(AutoReleasePending)
    else r
  }

  function IdentityProof(r: Resolution): Proof
    requires r.Resolved?
  {
    Proof(r.source, r.user.key, r.current, r.choice, r.sent,
          if r.identity.Some? then ApprovalTokens(r.identity.value, r.sent, r.held && r.source == PunchTimeHistory)
          else {})
  }

  /** The approval `create` saves for the punch, if it accepts it. */
  function Approve(v: View, q: Request): Option<Proof> {
    var r := Assess(v, q, true);
    if r.Resolved? then Some(IdentityProof(r)) else None
  }

  /** The newest usable interval at punch time that names `sent`. */
  function IntervalNaming(id: Identity, sent: string): (r: Option<Record>)
    ensures r.Some? ==> r.value.cnic == sent
  {
    if id.interval.Some? && id.interval.value.cnic == sent then id.interval
    else
      var rows := Naming(id.good, sent);
      if rows == [] then None else Some(Newest(rows))
  }

  function Naming(rows: seq<Record>, sent: string): (named: seq<Record>)
    ensures forall r :: r in named <==> r in rows && r.cnic == sent
  {
    if rows == [] then [] else (if rows[0].cnic == sent then [rows[0]] else []) + Naming(rows[1..], sent)
  }

  function Revalidate(v: View, p: Proof): Resolution {
    match v.roster
    case UnknownUser => Refused(NoUser)
    case CnicMissing => Refused(NoCnic)
    case Holder(user, current) =>
      if p.userKey != user.key || (p.source != PunchTimeHistory && p.currentHash != current) then Refused(SourceChanged)
      else if v.saved.Some? then Resolved(user, current, v.saved.value, SavedPunch, None, None, false)
      else
        var id := v.identity;
        var interval := if p.source == PunchTimeHistory then IntervalNaming(id, p.sent) else None;
        var held := p.source == PunchTimeHistory && p.sent in v.heldByOthers;
        var sent := if p.source == PunchTimeHistory then p.sent else current;
        if p.source == PunchTimeHistory && interval.None? then Refused(EvidenceDiffers)
        else if !(ApprovalTokens(id, sent, held) <= p.tokens) then Refused(EvidenceDiffers)
        else if p.source == PunchTimeHistory then PunchTimeResolution(v, interval, Some(PunchTime), held)
        else Resolved(user, current, current, SyncedUser, Some(id), p.choice, false)
  }

  /** `_same_identity`: the same user record, source and, for a synced CNIC, the same CNIC. */
  predicate SameIdentity(p: Proof, r: Resolution)
    requires r.Resolved?
  {
    p.source == r.source && p.userKey == r.user.key && (r.source == PunchTimeHistory || p.currentHash == r.current)
  }

  /** Queueing saves the proof it re-derives; each delivery check re-derives that one and saves nothing. */
  function Reprove(v: View, p: Proof): Option<Proof> {
    var r := Revalidate(v, p);
    if r.Resolved? && SameIdentity(p, r) then Some(IdentityProof(r)) else None
  }

  // ---- What an approval accepted ----

  /** The evidence ADD never lets an administrator send past. */
  ghost predicate Unanswerable(v: View) {
    v.roster.Holder? && (UnknownHolder(v.evidence) || v.evidence.truncated
        || (v.roster.user.conflict && !v.evidence.conflictResolved))
  }

  /** The CNICs other than `sent` that the records name at or near the punch. */
  ghost function NamedOthers(v: View, sent: string): set<string>
    requires v.roster.Holder?
  {
    Hashes(v.event, v.roster.current, v.evidence) - {sent}
  }

  predicate RefusingIdentity(id: Identity) {
    id.unknownHolder || ConflictUnresolved in id.signals || RecordsTruncated in id.signals
  }

  /** What the rules above need of a verdict; every classification meets it. */
  ghost predicate Judged(id: Identity, current: string) {
    && (RefusingIdentity(id) ==> id.state == Conflict)
    && (id.state == Differs ==> id.interval.Some? && id.cnic == Some(id.interval.value.cnic))
    && (id.state == ChangedNearPunch && id.interval.Some? ==> id.cnic == Some(id.interval.value.cnic))
    && (id.state == Differs ==> id.hashes == {id.cnic.value})
    && (id.state == ChangedNearPunch ==> exists h :: id.hashes == {h} && (id.cnic.Some? ==> id.cnic == Some(h)))
    && (id.state in {MatchesCurrent, Ambiguous, NoRecord} ==> id.hashes <= {current})
  }

  lemma SupportedIsJudged(e: Event, u: Option<User>, current: string, ev: Evidence, tolerance: nat, id: Identity)
    requires Supported(e, u, current, ev, tolerance, id) && (RefusingIdentity(id) ==> id.state == Conflict)
    ensures Judged(id, current)
  {
    if id.state == ChangedNearPunch {
      assert id.hashes == {ev.before.value.cnic};
    }
  }

  lemma ClassifiedIsJudged(v: View)
    requires v.roster.Holder? && Classified(v)
    ensures Judged(v.identity, v.roster.current)
    ensures forall h :: v.identity.hashes - {h} == NamedOthers(v, h)
    ensures RefusingIdentity(v.identity) <==> Unanswerable(v)
  {
    var u, id := Some(v.roster.user), v.identity;
    IdentifyReports(v.event, u, v.roster.current, v.evidence, v.tolerance);
    assert RefusingIdentity(id) <==> Unanswerable(v);
    if Unanswerable(v) {
      RefusingEvidenceConflicts(v.event, u, v.roster.current, v.evidence, v.tolerance);
    }
    IdentifySupported(v.event, u, v.roster.current, v.evidence, v.tolerance);
    SupportedIsJudged(v.event, u, v.roster.current, v.evidence, v.tolerance, id);
  }

  lemma TokensName(id: Identity, sent: string, held: bool)
    ensures var t := ApprovalTokens(id, sent, held);
            && (forall h :: CnicToken(h) in t <==> h in id.hashes - {sent})
            && (HeldToken in t <==> held)
            && (RefusingIdentity(id) <==> exists x :: x in t && !x.CnicToken? && x != HeldToken)
  {
    var t := ApprovalTokens(id, sent, held);
    if id.unknownHolder { assert UnknownHolderToken in t; }
    else if ConflictUnresolved in id.signals { assert SignalToken(ConflictUnresolved) in t; }
    else if RecordsTruncated in id.signals { assert SignalToken(RecordsTruncated) in t; }
  }

  predicate OnlyAnswerable(tokens: set<Token>) {
    forall x :: x in tokens ==> x.CnicToken? || x == HeldToken
  }

  /** The only evidence against its CNIC a saved approval ever accepts. */
  ghost predicate Answered(others: set<string>, held: bool, p: Proof, q: Request) {
    && OnlyAnswerable(p.tokens)
    && (forall h :: CnicToken(h) in p.tokens <==> h in others)
    && (others != {} ==> q.choice == Some(Current) && p.source == SyncedUser && exists h :: others == {h})
    && (HeldToken in p.tokens <==> p.source == PunchTimeHistory && held)
    && (HeldToken in p.tokens ==> q.heldConfirmed && q.choice == Some(PunchTime))
  }

  lemma AcceptedIsAnswered(v: View, q: Request)
    requires v.saved.None? && Approve(v, q).Some? && Judged(v.identity, v.roster.current)
    ensures var p := Approve(v, q).value;
            && !RefusingIdentity(v.identity)
            && Answered(v.identity.hashes - {p.sent}, p.sent in v.heldByOthers, p, q)
            && (p.source == SyncedUser ==> p.sent == p.currentHash == v.roster.current)
            && p.source != SavedPunch
  {
    var p, id := Approve(v, q).value, v.identity;
    var held := p.source == PunchTimeHistory && HeldElsewhere(v);
    assert p.tokens == ApprovalTokens(id, p.sent, held);
    TokensName(id, p.sent, held);
    if id.hashes - {p.sent} != {} {
      OneOtherAtMost(id, v.roster.current, p.sent);
    }
  }

  lemma OneOtherAtMost(id: Identity, current: string, sent: string)
    requires Judged(id, current) && id.state != Conflict && id.hashes - {sent} != {}
    requires sent == current || (id.cnic == Some(sent) && id.state in {Differs, ChangedNearPunch})
    ensures sent == current && id.state in {Differs, ChangedNearPunch}
    ensures exists h :: id.hashes - {sent} == {h}
  {
  }

  // ---- When an approval is accepted ----

  function TrustedAt(v: View): seq<Record>
    requires v.roster.Holder?
  {
    Trusted(v.event, Some(v.roster.user), v.roster.current, v.evidence)
  }

  function NamedAt(v: View): set<string>
    requires v.roster.Holder?
  {
    Hashes(v.event, v.roster.current, v.evidence)
  }

  /** Only today's CNIC is named and nothing weakens the records that name it. */
  ghost predicate MatchesAt(v: View)
    requires v.roster.Holder?
  {
    NamedAt(v) <= {v.roster.current} && !Weakened(v.event, Some(v.roster.user), v.evidence)
    && (TrustedAt(v) != [] || v.event.captured == Some(v.roster.current))
  }

  ghost predicate DiffersAt(v: View)
    requires v.roster.Holder?
  {
    NamesOneOther(v.roster.current, NamedAt(v), TrustedAt(v))
  }

  ghost predicate ChangesAt(v: View)
    requires v.roster.Holder?
  {
    v.evidence.tombstones == [] && v.evidence.prior.None?
    && ChangeOffered(v.event, Some(v.roster.user), v.roster.current, v.evidence, v.tolerance)
  }

  /** What an administrator may choose on this evidence. */
  ghost predicate Offers(v: View, c: Choice)
    requires v.roster.Holder?
  {
    var u := Some(v.roster.user);
    !Unanswerable(v) &&
    match c
    case PunchTime => DiffersAt(v) || (ChangesAt(v) && OldMayBeSent(v.event, u, v.evidence, v.tolerance))
    case Current =>
      (DiffersAt(v) && SameUserEdited(v.event, u, v.evidence, TrustedAt(v)))
      || (ChangesAt(v) && NewMayBeSent(v.event, u, v.evidence, v.tolerance))
      || (NamedAt(v) <= {v.roster.current} && !MatchesAt(v))
  }

  /** The record whose CNIC the punch-time choice sends: the newest trusted one, or the one that ended before it. */
  function OfferedRecord(v: View): Record
    requires v.roster.Holder? && (TrustedAt(v) != [] || v.evidence.before.Some?)
  {
    if TrustedAt(v) != [] then Newest(TrustedAt(v)) else v.evidence.before.value
  }

  lemma VerdictSays(v: View)
    requires v.roster.Holder? && Classified(v)
    ensures v.identity.state == MatchesCurrent <==> !Unanswerable(v) && MatchesAt(v)
    ensures v.identity.state == Differs <==> !Unanswerable(v) && DiffersAt(v)
    ensures v.identity.state == ChangedNearPunch <==> !Unanswerable(v) && ChangesAt(v)
    ensures v.identity.state in {Ambiguous, NoRecord} <==>
              !Unanswerable(v) && NamedAt(v) <= {v.roster.current} && !MatchesAt(v)
  {
    VerdictExactly(v.event, Some(v.roster.user), v.roster.current, v.evidence, v.tolerance);
  }

  lemma VerdictCarries(v: View)
    requires v.roster.Holder? && Classified(v)
    ensures var u, id := Some(v.roster.user), v.identity;
            && (id.state == Differs ==> (id.continuity <==> SameUserEdited(v.event, u, v.evidence, TrustedAt(v))))
            && (id.state == ChangedNearPunch ==>
                  (id.interval.Some? <==> OldMayBeSent(v.event, u, v.evidence, v.tolerance))
                  && (id.currentNearby <==> NewMayBeSent(v.event, u, v.evidence, v.tolerance)))
  {
    IdentifySupported(v.event, Some(v.roster.user), v.roster.current, v.evidence, v.tolerance);
    IdentifyReports(v.event, Some(v.roster.user), v.roster.current, v.evidence, v.tolerance);
  }

  /** The choices offered are exactly those the evidence allows. */
  lemma ChoicesAreOffers(v: View, c: Choice)
    requires v.roster.Holder? && Classified(v)
    ensures c in ChoicesFor(v.identity) <==> Offers(v, c)
  {
    VerdictSays(v);
    VerdictCarries(v);
  }

  lemma OfferIsRecorded(v: View)
    requires v.roster.Holder? && Classified(v) && Offers(v, PunchTime)
    ensures TrustedAt(v) != [] || v.evidence.before.Some?
    ensures v.identity.interval == Some(OfferedRecord(v)) && v.identity.cnic == Some(OfferedRecord(v).cnic)
  {
    VerdictSays(v);
    OfferedOf(v.event, Some(v.roster.user), v.roster.current, v.evidence, v.tolerance);
  }

  lemma {:induction false} OfferedOf(e: Event, u: Option<User>, current: string, ev: Evidence, tolerance: nat)
    ensures var id, trusted := Identify(e, u, current, ev, tolerance), Trusted(e, u, current, ev);
            && (id.state == Differs ==> trusted != [] && id.interval == Some(Newest(trusted))
                                        && id.cnic == Some(Newest(trusted).cnic))
            && (id.state == ChangedNearPunch && OldMayBeSent(e, u, ev, tolerance) ==>
                  trusted == [] && id.interval == ev.before && id.cnic == Some(ev.before.value.cnic))
  {
    var trusted := Trusted(e, u, current, ev);
    JudgedOffer(e, u, current, ev, tolerance, Hashes(e, current, ev), UnknownHolder(ev),
                Signals(e, u, current, ev, tolerance), trusted);
    if Identify(e, u, current, ev, tolerance).state == ChangedNearPunch {
      IdentifySupported(e, u, current, ev, tolerance);
    }
  }

  lemma {:induction false} JudgedOffer(
      e: Event, u: Option<User>, current: string, ev: Evidence, tolerance: nat,
      hashes: set<string>, unknown: bool, signals: set<Signal>, good: seq<Record>)
    ensures var id := Judge(e, u, current, ev, tolerance, hashes, unknown, signals, good);
            id.state == Differs ==>
              good != [] && id.interval == Some(Newest(good)) && id.cnic == Some(Newest(good).cnic)
  {
  }

  predicate PassesGuards(v: View, q: Request) {
    !v.guards.blocked && !v.guards.timeRefused && !v.guards.newestOnly
    && (q.choice.Some? ==> q.shown == EvidenceShown(v)) && (v.guards.autoReleaseSoon ==> q.sendNow)
  }

  /** The offered record's CNIC can be read, belongs to nobody else or was confirmed, and goes with a name. */
  ghost predicate RecordMayBeSent(v: View, q: Request)
    requires v.roster.Holder? && (TrustedAt(v) != [] || v.evidence.before.Some?)
  {
    OfferedRecord(v).id in v.readable && (OfferedRecord(v).cnic in v.heldByOthers ==> q.heldConfirmed)
    && !v.guards.nameMissing
  }

  ghost predicate Approvable(v: View, q: Request) {
    v.roster.Holder? && PassesGuards(v, q)
    && (v.saved.Some?
        || (!Unanswerable(v) && MatchesAt(v))
        || (q.choice == Some(Current) && Offers(v, Current))
        || (q.choice == Some(PunchTime) && Offers(v, PunchTime)
            && (TrustedAt(v) != [] || v.evidence.before.Some?) && RecordMayBeSent(v, q)))
  }

  /** An approval is accepted if and only if the evidence, the guards and the choice allow it, whatever it sends. */
  lemma ApprovedExactly(v: View, q: Request)
    requires Classified(v)
    ensures Approve(v, q).Some? <==> Approvable(v, q)
    ensures Approve(v, q).Some? ==>
              var p := Approve(v, q).value;
              p.userKey == v.roster.user.key && p.currentHash == v.roster.current
              && (if v.saved.Some? then p.source == SavedPunch && p.sent == v.saved.value
                  else if MatchesAt(v) || q.choice == Some(Current) then
                    p.source == SyncedUser && p.sent == v.roster.current
                  else
                    (TrustedAt(v) != [] || v.evidence.before.Some?)
                    && p.source == PunchTimeHistory && p.sent == OfferedRecord(v).cnic)
  {
    AcceptedOn(v, q);
    if v.roster.Holder? && v.saved.None? {
      VerdictSays(v);
      ChoicesAreOffers(v, Current);
      ChoicesAreOffers(v, PunchTime);
      if Offers(v, PunchTime) {
        OfferIsRecorded(v);
      }
    }
  }

  /** The same on the verdict alone. */
  lemma AcceptedOn(v: View, q: Request)
    ensures var id, r := v.identity, Approve(v, q);
            && (r.Some? <==>
                  v.roster.Holder? && PassesGuards(v, q)
                  && (v.saved.Some? || id.state == MatchesCurrent
                      || (q.choice == Some(Current) && Current in ChoicesFor(id))
                      || (q.choice == Some(PunchTime) && PunchTime in ChoicesFor(id) && id.interval.Some?
                          && id.interval.value.id in v.readable && !v.guards.nameMissing
                          && (HeldElsewhere(v) ==> q.heldConfirmed))))
            && (r.Some? ==> r.value.userKey == v.roster.user.key && r.value.currentHash == v.roster.current
                            && (v.saved.Some? ==> r.value.source == SavedPunch && r.value.sent == v.saved.value)
                            && (v.saved.None? ==>
                                  if id.state == MatchesCurrent || q.choice == Some(Current) then
                                    r.value.source == SyncedUser && r.value.sent == v.roster.current
                                  else
                                    id.interval.Some? && r.value.source == PunchTimeHistory
                                    && r.value.sent == id.interval.value.cnic))
  {
  }

  /** What each refusal means, in terms of the evidence, the guards and the choice. */
  ghost predicate RefusalMeans(v: View, q: Request, why: Refusal) {
    match why
    case NoUser => v.roster.UnknownUser?
    case NoCnic => v.roster.CnicMissing?
    case DuplicateUnresolved => v.roster.Holder? && v.roster.user.conflict && !v.evidence.conflictResolved
    case TooManyRecords => v.roster.Holder? && v.evidence.truncated
    case CnicConflict =>
      v.roster.Holder? && !Refuses(Some(v.roster.user), v.evidence)
      && Unsettled(v.event, Some(v.roster.user), v.roster.current, v.evidence, v.tolerance)
    case ChoiceRequired =>
      v.roster.Holder? && !Unanswerable(v) && !MatchesAt(v) && (q.choice.Some? ==> !Offers(v, q.choice.value))
    case CnicUnreadable =>
      v.roster.Holder? && q.choice == Some(PunchTime) && Offers(v, PunchTime)
      && (TrustedAt(v) != [] || v.evidence.before.Some?) && OfferedRecord(v).id !in v.readable
    case ChoiceStale => q.choice.Some? && q.shown != EvidenceShown(v)
    case HeldByOther =>
      v.roster.Holder? && (TrustedAt(v) != [] || v.evidence.before.Some?)
      && OfferedRecord(v).cnic in v.heldByOthers && !q.heldConfirmed
    case Blocked => v.guards.blocked
    case TimeRefused => v.guards.timeRefused
    case NewestOnly => v.guards.newestOnly
    case NameMissing => v.guards.nameMissing && q.choice == Some(PunchTime)
    case AutoReleasePending => v.guards.autoReleaseSoon && !q.sendNow
    case SourceChanged | EvidenceDiffers => false
  }

  /** Whatever reason a refused approval names is true of the punch. */
  lemma RefusedForItsReason(v: View, q: Request)
    requires Classified(v) && Assess(v, q, true).Refused?
    ensures RefusalMeans(v, q, Assess(v, q, true).why)
  {
    RefusedOn(v, q);
    if v.roster.Holder? && v.saved.None? {
      ReasonHolds(v, q, Assess(v, q, true).why);
    }
  }

  /** The same on the verdict alone. */
  ghost predicate VerdictRefuses(v: View, q: Request, why: Refusal) {
    var id := v.identity;
    match why
    case NoUser => v.roster.UnknownUser?
    case NoCnic => v.roster.CnicMissing?
    case DuplicateUnresolved => ConflictUnresolved in id.signals
    case TooManyRecords => RecordsTruncated in id.signals
    case CnicConflict => id.state == Conflict && ConflictUnresolved !in id.signals && RecordsTruncated !in id.signals
    case ChoiceRequired =>
      id.state !in {MatchesCurrent, Conflict} && (q.choice.Some? ==> q.choice.value !in ChoicesFor(id))
    case CnicUnreadable =>
      q.choice == Some(PunchTime) && PunchTime in ChoicesFor(id)
      && (id.interval.None? || id.interval.value.id !in v.readable)
    case ChoiceStale => q.choice.Some? && q.shown != EvidenceShown(v)
    case HeldByOther => HeldElsewhere(v) && !q.heldConfirmed
    case Blocked => v.guards.blocked
    case TimeRefused => v.guards.timeRefused
    case NewestOnly => v.guards.newestOnly
    case NameMissing => v.guards.nameMissing && q.choice == Some(PunchTime)
    case AutoReleasePending => v.guards.autoReleaseSoon && !q.sendNow
    case SourceChanged | EvidenceDiffers => false
  }

  /** Refusals that speak of the records. */
  predicate AboutRecords(why: Refusal) {
    why in {DuplicateUnresolved, TooManyRecords, CnicConflict, ChoiceRequired, CnicUnreadable, HeldByOther}
  }

  lemma RefusedOn(v: View, q: Request)
    requires Assess(v, q, true).Refused?
    ensures VerdictRefuses(v, q, Assess(v, q, true).why)
    ensures AboutRecords(Assess(v, q, true).why) ==> v.roster.Holder? && v.saved.None?
  {
  }

  lemma ReasonHolds(v: View, q: Request, why: Refusal)
    requires Classified(v) && v.roster.Holder? && VerdictRefuses(v, q, why)
    ensures RefusalMeans(v, q, why)
  {
    match why
    case DuplicateUnresolved | TooManyRecords | CnicConflict => ConflictSays(v);
    case ChoiceRequired =>
      VerdictSays(v);
      ConflictSays(v);
      NotConflictIsAnswerable(v);
      if q.choice.Some? { ChoicesAreOffers(v, q.choice.value); }
    case CnicUnreadable | HeldByOther =>
      ChoicesAreOffers(v, PunchTime);
      OfferIsRecorded(v);
    case _ =>
  }

  lemma NotConflictIsAnswerable(v: View)
    requires v.roster.Holder? && Classified(v) && v.identity.state != Conflict
    ensures !Unanswerable(v)
  {
    ClassifiedIsJudged(v);
  }

  lemma ConflictSays(v: View)
    requires v.roster.Holder? && Classified(v)
    ensures var u := Some(v.roster.user);
            && (v.identity.state == Conflict ==> Unsettled(v.event, u, v.roster.current, v.evidence, v.tolerance))
            && (ConflictUnresolved in v.identity.signals <==> v.roster.user.conflict && !v.evidence.conflictResolved)
            && (RecordsTruncated in v.identity.signals <==> v.evidence.truncated)
  {
    var u := Some(v.roster.user);
    VerdictExactly(v.event, u, v.roster.current, v.evidence, v.tolerance);
    IdentifyReports(v.event, u, v.roster.current, v.evidence, v.tolerance);
  }

  /**
   Every accepted approval answers the evidence: nothing unanswerable, another CNIC only by choice, and today's CNIC
   over trusted records of another one only where all of them are today's own user record.
   */
  lemma ApprovalIsAnswered(v: View, q: Request)
    requires Classified(v) && v.saved.None? && Approve(v, q).Some?
    ensures v.roster.Holder? && !Unanswerable(v)
    ensures var p := Approve(v, q).value;
            Answered(NamedOthers(v, p.sent), p.sent in v.heldByOthers, p, q)
            && (p.source == SyncedUser ==> p.sent == v.roster.current)
    ensures q.choice == Some(Current) && DiffersAt(v) ==>
              SameUserEdited(v.event, Some(v.roster.user), v.evidence, TrustedAt(v))
  {
    ClassifiedIsJudged(v);
    AcceptedIsAnswered(v, q);
    ApprovedExactly(v, q);
    if DiffersAt(v) {
      VerdictSays(v);
    }
  }

  /** Evidence nobody can answer refuses the approval and every later revalidation. */
  lemma UnanswerableAlwaysRefuses(v: View, q: Request, p: Proof)
    requires Classified(v) && v.saved.None? && Unanswerable(v) && OnlyAnswerable(p.tokens)
    ensures Resolve(v, q.choice).Refused? && Approve(v, q).None? && Revalidate(v, p).Refused?
  {
    ClassifiedIsJudged(v);
    RefusingIsRefused(v, q, p);
  }

  lemma RefusingIsRefused(v: View, q: Request, p: Proof)
    requires v.roster.Holder? && v.saved.None? && RefusingIdentity(v.identity) && v.identity.state == Conflict
             && OnlyAnswerable(p.tokens)
    ensures Resolve(v, q.choice).Refused? && Approve(v, q).None? && Revalidate(v, p).Refused?
  {
    TokensName(v.identity, if p.source == PunchTimeHistory then p.sent else v.roster.current,
               p.source == PunchTimeHistory && p.sent in v.heldByOthers);
  }

  /** A choice is only accepted on evidence that reads exactly as the administrator saw it. */
  lemma ChoiceIsBoundToWhatWasShown(seen: View, v: View, q: Request)
    requires q.choice.Some? && q.shown == EvidenceShown(seen)
    requires v.saved.None? && Approve(v, q).Some?
    ensures seen.roster.Holder? && seen.saved.None? && seen.event.id == v.event.id
    ensures seen.roster.user.key == v.roster.user.key && seen.roster.current == v.roster.current
    ensures seen.identity.state == v.identity.state && seen.identity.hashes == v.identity.hashes
    ensures RefusingIdentity(seen.identity) == RefusingIdentity(v.identity) && HeldElsewhere(seen) == HeldElsewhere(v)
    ensures ChoicesFor(seen.identity) == ChoicesFor(v.identity) && seen.identity.cnic == v.identity.cnic
    ensures seen.identity.interval.Some? == v.identity.interval.Some?
            && (v.identity.interval.Some? ==> seen.identity.interval.value.id == v.identity.interval.value.id)
    ensures seen.identity.signals == v.identity.signals && seen.identity.unknownHolder == v.identity.unknownHolder
    ensures seen.identity.basis == v.identity.basis && seen.identity.position == v.identity.position
  {
    assert EvidenceShown(v).Some?;
  }

  // ---- Revalidation ----

  /** What a later view must look like for a saved approval to pass it. */
  ghost predicate StillAnswered(v: View, p: Proof) {
    && v.roster.Holder? && v.roster.user.key == p.userKey
    && !RefusingIdentity(v.identity)
    && (forall h :: h in v.identity.hashes - {p.sent} ==> CnicToken(h) in p.tokens)
    && (p.source == PunchTimeHistory && p.sent in v.heldByOthers ==> HeldToken in p.tokens)
    && (p.source == SyncedUser ==> p.sent == v.roster.current)
  }

  predicate Sound(p: Proof) {
    p.source != SavedPunch && OnlyAnswerable(p.tokens) && (p.source == SyncedUser ==> p.sent == p.currentHash)
  }

  lemma RevalidationIsAnswered(v: View, p: Proof)
    requires v.saved.None? && Sound(p) && Reprove(v, p).Some?
    ensures var n := Reprove(v, p).value;
            n.source == p.source && n.sent == p.sent && n.userKey == p.userKey && n.tokens <= p.tokens && Sound(n)
    ensures StillAnswered(v, p)
  {
    TokensName(v.identity, p.sent, p.source == PunchTimeHistory && p.sent in v.heldByOthers);
  }

  /** The interval a punch-time approval rests on now: the verdict's own, or the newest trusted one of that CNIC. */
  ghost predicate ProvesSent(id: Identity, r: Record, sent: string) {
    r.cnic == sent
    && (id.interval == Some(r)
        || ((id.interval.None? || id.interval.value.cnic != sent) && r in id.good
            && forall x :: x in id.good && x.cnic == sent ==> x.id <= r.id))
  }

  /** A saved approval passes a later check if and only if that view still answers for it. */
  lemma RevalidatesExactly(v: View, p: Proof)
    requires v.saved.None? && Sound(p)
    ensures Reprove(v, p).Some? <==>
              StillAnswered(v, p)
              && (p.source == PunchTimeHistory ==> exists r :: ProvesSent(v.identity, r, p.sent) && r.id in v.readable)
  {
    if v.roster.Holder? {
      TokensAnswer(v, p);
      if p.source == PunchTimeHistory {
        NamingIsProof(v.identity, p.sent, v.readable);
      }
    }
  }

  /** A punch that carries a CNIC of its own now passes exactly for an approval of that kind. */
  lemma SavedRevalidatesExactly(v: View, p: Proof)
    requires v.saved.Some?
    ensures Reprove(v, p).Some? <==>
              v.roster.Holder? && p.source == SavedPunch && p.userKey == v.roster.user.key
              && p.currentHash == v.roster.current
  {
  }

  /** A revalidation that fails says whether the user, today's CNIC, the evidence or a record is at fault. */
  lemma RevalidationRefusedForItsReason(v: View, p: Proof)
    requires Revalidate(v, p).Refused?
    ensures match Revalidate(v, p).why
            case NoUser => v.roster.UnknownUser?
            case NoCnic => v.roster.CnicMissing?
            case SourceChanged =>
              v.roster.Holder? && (p.userKey != v.roster.user.key
                                   || (p.source != PunchTimeHistory && p.currentHash != v.roster.current))
            case EvidenceDiffers => v.roster.Holder? && v.saved.None?
            case CnicUnreadable => v.roster.Holder? && v.saved.None? && p.source == PunchTimeHistory
            case _ => false
  {
  }

  /** No token beyond the accepted ones means nothing new is named and nobody else came to hold the CNIC. */
  lemma TokensAnswer(v: View, p: Proof)
    requires OnlyAnswerable(p.tokens)
    ensures var held := p.source == PunchTimeHistory && p.sent in v.heldByOthers;
            ApprovalTokens(v.identity, p.sent, held) <= p.tokens <==>
              !RefusingIdentity(v.identity)
              && (forall h :: h in v.identity.hashes - {p.sent} ==> CnicToken(h) in p.tokens)
              && (held ==> HeldToken in p.tokens)
  {
    var held := p.source == PunchTimeHistory && p.sent in v.heldByOthers;
    var t := ApprovalTokens(v.identity, p.sent, held);
    TokensName(v.identity, p.sent, held);
    forall x | x in t && x.CnicToken? ensures x.hash in v.identity.hashes - {p.sent} {
      assert CnicToken(x.hash) in t;
    }
  }

  lemma NamingIsProof(id: Identity, sent: string, readable: set<int>)
    ensures (IntervalNaming(id, sent).Some? && IntervalNaming(id, sent).value.id in readable) <==>
              exists r :: ProvesSent(id, r, sent) && r.id in readable
  {
    var found := IntervalNaming(id, sent);
    if found.Some? && found.value.id in readable {
      NamedProves(id, sent);
    }
    if r :| ProvesSent(id, r, sent) && r.id in readable {
      ProofIsNamed(id, r, sent);
    }
  }

  lemma NamedProves(id: Identity, sent: string)
    requires IntervalNaming(id, sent).Some?
    ensures ProvesSent(id, IntervalNaming(id, sent).value, sent)
  {
  }

  lemma ProofIsNamed(id: Identity, r: Record, sent: string)
    requires ProvesSent(id, r, sent)
    ensures IntervalNaming(id, sent).Some? && IntervalNaming(id, sent).value.id == r.id
  {
    if id.interval != Some(r) {
      assert r in Naming(id.good, sent);
    }
  }

  /** Nothing having changed, every accepted approval passes queueing and delivery as it was saved. */
  lemma ApprovalRevalidates(v: View, q: Request)
    requires Classified(v) && Approve(v, q).Some?
    ensures Reprove(v, Approve(v, q).value) == Approve(v, q)
  {
    if v.saved.Some? {
      SavedRevalidates(v, q);
    } else {
      assert Judged(v.identity, v.roster.current) by {
        ClassifiedIsJudged(v);
      }
      UnsavedRevalidates(v, q);
    }
  }

  lemma SavedRevalidates(v: View, q: Request)
    requires v.saved.Some? && Approve(v, q).Some?
    ensures Reprove(v, Approve(v, q).value) == Approve(v, q)
  {
  }

  lemma UnsavedRevalidates(v: View, q: Request)
    requires v.saved.None? && Approve(v, q).Some? && Judged(v.identity, v.roster.current)
    ensures Reprove(v, Approve(v, q).value) == Approve(v, q)
  {
    var p := Approve(v, q).value;
    if p.source == SyncedUser {
      SyncedRevalidates(v, q, p);
    } else {
      RecordedRevalidates(v, q, p);
    }
  }

  lemma SyncedRevalidates(v: View, q: Request, p: Proof)
    requires v.saved.None? && Approve(v, q) == Some(p) && p.source == SyncedUser
    ensures Reprove(v, p) == Some(p)
  {
    assert p.tokens == ApprovalTokens(v.identity, v.roster.current, false);
  }

  lemma RecordedRevalidates(v: View, q: Request, p: Proof)
    requires v.saved.None? && Approve(v, q) == Some(p) && p.source == PunchTimeHistory
    requires Judged(v.identity, v.roster.current)
    ensures Reprove(v, p) == Some(p)
  {
    assert HeldElsewhere(v) == (p.sent in v.heldByOthers);
    assert p.tokens == ApprovalTokens(v.identity, p.sent, HeldElsewhere(v));
    assert IntervalNaming(v.identity, p.sent) == v.identity.interval;
  }

  lemma FewerTokensAnswerLess(v: View, n: Proof, p: Proof)
    requires StillAnswered(v, n) && n.tokens <= p.tokens
    requires n.source == p.source && n.sent == p.sent && n.userKey == p.userKey
    ensures StillAnswered(v, p)
  {
  }

  /** What may still be named against the sent CNIC at a later check. */
  ghost predicate NothingNew(w: View, v: View, sent: string, source: Source, q: Request) {
    && v.roster.Holder? && w.roster.Holder? && !Unanswerable(w)
    && NamedOthers(w, sent) <= NamedOthers(v, sent)
    && (NamedOthers(w, sent) != {} ==> q.choice == Some(Current))
    && (source == PunchTimeHistory && sent in w.heldByOthers ==> q.heldConfirmed)
  }

  /**
   From approval through queueing to every delivery check, only a chosen single other CNIC or a confirmed
   holder is overruled.
   */
  lemma ApprovedPunchStaysAnswered(v: View, q: Request, queued: View, w: View)
    requires Classified(v) && v.saved.None? && Approve(v, q).Some?
    requires Classified(queued) && queued.saved.None? && Reprove(queued, Approve(v, q).value).Some?
    requires Classified(w) && w.saved.None? && Reprove(w, Reprove(queued, Approve(v, q).value).value).Some?
    ensures var p := Approve(v, q).value; var n := Reprove(queued, p).value; var d := Reprove(w, n).value;
            && d.sent == n.sent == p.sent && d.source == n.source == p.source && d.tokens <= n.tokens <= p.tokens
            && NothingNew(queued, v, p.sent, p.source, q) && NothingNew(w, v, p.sent, p.source, q)
  {
    var p := Approve(v, q).value;
    var n := Reprove(queued, p).value;
    ClassifiedIsJudged(v);
    AcceptedIsAnswered(v, q);
    RevalidationIsAnswered(queued, p);
    RevalidationIsAnswered(w, n);
    FewerTokensAnswerLess(w, n, p);
    ClassifiedIsJudged(queued);
    LaterIsNothingNew(queued, v, p, q);
    ClassifiedIsJudged(w);
    LaterIsNothingNew(w, v, p, q);
  }

  lemma LaterIsNothingNew(w: View, v: View, p: Proof, q: Request)
    requires v.roster.Holder? && StillAnswered(w, p) && Answered(NamedOthers(v, p.sent), p.sent in v.heldByOthers, p, q)
    requires w.identity.hashes - {p.sent} == NamedOthers(w, p.sent) && !Unanswerable(w)
    ensures NothingNew(w, v, p.sent, p.source, q)
  {
    forall h | h in NamedOthers(w, p.sent)
      ensures h in NamedOthers(v, p.sent)
    {
      assert CnicToken(h) in p.tokens;
    }
  }

  // ---- One-click release ----

  datatype Row = Row(event: int, excluded: bool, choiceRequired: bool, state: Option<State>, shown: Option<Shown>,
                     defaultPunchTime: bool, choices: set<Choice>, signals: set<Signal>, releasedSoon: bool)

  /** The preview of one punch: assessed with no choice made. */
  function Preview(v: View): Row {
    var r := Assess(v, Request(None, None, false, false), false);
    var s := EvidenceShown(v);
    var required := r == Refused(ChoiceRequired);
    Row(v.event.id, r.Refused? && r.why !in {ChoiceRequired, AutoReleasePending}, required,
        if s.Some? then Some(s.value.state) else None, s,
        s.Some? && s.value.state == Differs && required && PunchTime in s.value.choices && !s.value.held,
        if s.Some? && required then s.value.choices else {},
        if s.Some? then s.value.signals else {}, v.guards.autoReleaseSoon)
  }

  /** The choice one click makes on a preview row, if it makes one. */
  function QuickChoice(row: Row): Option<Choice> {
    if row.excluded || !row.choiceRequired || row.shown.None? then None
    else if row.state == Some(Differs) && row.defaultPunchTime then Some(PunchTime)
    else if row.state == Some(NoRecord) && Current in row.choices && NameDiffers !in row.signals then Some(Current)
    else None
  }

  predicate QuickSendsNow(row: Row) {
    !row.excluded && row.releasedSoon && (row.choiceRequired ==> QuickChoice(row).Some?)
  }

  /** `quick_decisions`: the choices made and the punches sent before their automatic release. */
  method QuickDecisions(rows: seq<Row>) returns (choices: map<int, (Choice, Shown)>, sendNow: set<int>)
    requires forall i, j :: 0 <= i < j < |rows| ==> rows[i].event != rows[j].event
    ensures forall row :: row in rows ==>
              && (row.event in choices <==> QuickChoice(row).Some?)
              && (row.event in choices ==> choices[row.event] == (QuickChoice(row).value, row.shown.value))
              && (row.event in sendNow <==> QuickSendsNow(row))
    ensures forall e :: e in choices || e in sendNow ==> exists row :: row in rows && row.event == e
  {
    choices, sendNow := map[], {};
    for n := 0 to |rows|
      invariant forall row :: row in rows[..n] ==>
                  && (row.event in choices <==> QuickChoice(row).Some?)
                  && (row.event in choices ==> choices[row.event] == (QuickChoice(row).value, row.shown.value))
                  && (row.event in sendNow <==> QuickSendsNow(row))
      invariant forall e :: e in choices || e in sendNow ==> exists row :: row in rows[..n] && row.event == e
    {
      var row := rows[n];
      assert rows[..n + 1] == rows[..n] + [row] && row in rows[..n + 1];
      if !row.excluded {
        if row.choiceRequired {
          var choice := None;
          if row.state == Some(Differs) && row.defaultPunchTime {
            choice := Some(PunchTime);
          } else if row.state == Some(NoRecord) && Current in row.choices && NameDiffers !in row.signals {
            choice := Some(Current);
          }
          if choice.None? || row.shown.None? { continue; }
          choices := choices[row.event := (choice.value, row.shown.value)];
        }
        if row.releasedSoon { sendNow := sendNow + {row.event}; }
      }
    }
    assert rows[..|rows|] == rows;
  }

  /** The request one click sends for a punch it saw as `seen`. */
  function QuickRequest(seen: View): Request {
    var row := Preview(seen);
    Request(QuickChoice(row), if QuickChoice(row).Some? then row.shown else None, false, QuickSendsNow(row))
  }

  /** Whatever changed since the preview, a one-click approval overrules no evidence. */
  lemma OneClickOverrulesNothing(seen: View, v: View)
    requires Classified(v) && Approve(v, QuickRequest(seen)).Some?
    ensures Approve(v, QuickRequest(seen)).value.tokens == {}
    ensures v.saved.None? ==> !Unanswerable(v) && NamedOthers(v, Approve(v, QuickRequest(seen)).value.sent) == {}
  {
    var q := QuickRequest(seen);
    if v.saved.None? {
      ClassifiedIsJudged(v);
      QuickNamesNobody(seen, v, q);
    }
  }

  /** One click releases a punch, unchanged since its preview, exactly where no evidence has to be overruled. */
  ghost predicate QuickReleases(v: View) {
    v.roster.Holder? && !v.guards.blocked && !v.guards.timeRefused && !v.guards.newestOnly
    && (v.saved.Some?
        || (!Unanswerable(v)
            && (MatchesAt(v)
                || (DiffersAt(v) && TrustedAt(v) != [] && OfferedRecord(v).id in v.readable
                    && OfferedRecord(v).cnic !in v.heldByOthers && !v.guards.nameMissing)
                || (NamedAt(v) <= {v.roster.current} && TrustedAt(v) == [] && !v.event.nameDiffers
                    && v.event.captured != Some(v.roster.current)
                    && !Weakened(v.event, Some(v.roster.user), v.evidence)))))
  }

  lemma OneClickReleases(v: View)
    requires Classified(v)
    ensures Approve(v, QuickRequest(v)).Some? <==> QuickReleases(v)
  {
    AcceptedOn(v, QuickRequest(v));
    QuickChooses(v);
    if v.roster.Holder? && v.saved.None? {
      VerdictSays(v);
      VerdictExactly(v.event, Some(v.roster.user), v.roster.current, v.evidence, v.tolerance);
      SignalsExactly(NameDiffers, v.event, Some(v.roster.user), v.roster.current, v.evidence, v.tolerance);
      if v.identity.state == Differs {
        OfferIsRecorded(v);
      }
    }
  }

  /** The choice one click makes on a punch, on the verdict alone. */
  lemma QuickChooses(v: View)
    ensures var q, id := QuickRequest(v), v.identity;
            var open := v.roster.Holder? && !v.guards.blocked && !v.guards.timeRefused && !v.guards.newestOnly;
            var plain := open && v.saved.None?;
            && (q.choice == Some(PunchTime) <==> plain && id.state == Differs && !HeldElsewhere(v))
            && (q.choice == Some(Current) <==> plain && id.state == NoRecord && NameDiffers !in id.signals)
            && (q.choice.Some? ==> q.shown == EvidenceShown(v))
            && (q.sendNow <==> open && v.guards.autoReleaseSoon
                               && (v.saved.Some? || id.state == MatchesCurrent || q.choice.Some?))
  {
  }

  lemma QuickNamesNobody(seen: View, v: View, q: Request)
    requires q == QuickRequest(seen) && v.saved.None? && Approve(v, q).Some? && Judged(v.identity, v.roster.current)
    ensures Approve(v, q).value.tokens == {} && !RefusingIdentity(v.identity)
    ensures v.identity.hashes - {Approve(v, q).value.sent} == {}
  {
    var p := Approve(v, q).value;
    AcceptedIsAnswered(v, q);
    if q.choice == Some(Current) {
      ChoiceIsBoundToWhatWasShown(seen, v, q);
    }
    assert v.identity.hashes - {p.sent} == {};
    assert forall x :: x !in p.tokens;
  }
}
