/**
 Invites and password resets under concurrent transactions. A transaction locks its token's
 row before it looks at it, and holds the lock until it ends; what it writes becomes visible
 when it commits. Steps of different transactions come in any order, and any transaction may
 be aborted at any point.
 */
module SingleUse {
  import opened Text
  import opened Wrappers
  import IsoTimestamps

  /** New user ids are drawn so that they never meet another: each is its transaction's own. */
  datatype UserId = Existing(name: string) | NewUser(tx: nat)

  datatype User = User(email: string, password: string)

  /** The transaction that set used_at, if any. */
  datatype ResetRow = ResetRow(user: UserId, expiresAt: string, usedBy: Option<nat>)

  datatype Job =
    | Register(token: string, email: string, password: string)
    | Reset(token: string, password: string, now: string)

  /** Unknown is answered 400, Used and Expired 410, Taken 409; Aborted covers every other failure. */
  datatype Outcome = Committed | Unknown | Used | Expired | Taken | Aborted

  datatype Phase = Begun | Holding | Checked | Written | Marked | Finished(outcome: Outcome)

  datatype Tx = Tx(job: Job, phase: Phase)

  datatype Key = InviteKey(token: string) | ResetKey(token: string)

  function KeyOf(job: Job): Key {
    if job.Register? then InviteKey(job.token) else ResetKey(job.token)
  }

  type Users = map<UserId, User>
  type Invites = map<string, Option<UserId>>      // by token: who used it
  type Resets = map<string, ResetRow>
  type Txs = map<nat, Tx>

  /** claims: addresses inserted by transactions still open, which the unique index holds. */
  datatype Sys = Sys(users: Users, invites: Invites, resets: Resets, txs: Txs, locks: map<Key, nat>,
                     claims: map<string, nat>, clock: IsoTimestamps.Moment)

  predicate EmailTaken(users: Users, email: string) {
    exists u :: u in users && users[u].email == email
  }

  predicate Holds(phase: Phase) {
    phase.Holding? || phase.Checked? || phase.Written? || phase.Marked?
  }

  datatype Step =
    | IssueInvite(token: string)
    | IssueReset(token: string, user: UserId, expiresAt: string)
    | Tick(now: IsoTimestamps.Moment)
    | Begin(id: nat, job: Job)
    | Lock(id: nat)
    | CheckEmail(id: nat)
    | WriteUser(id: nat)
    | MarkUsed(id: nat)
    | Commit(id: nat)
    | Abort(id: nat)

  function At(txs: Txs, id: nat, phase: Phase): Txs
    requires id in txs
  {
    txs[id := txs[id].(phase := phase)]
  }

  function To(s: Sys, id: nat, phase: Phase): Sys
    requires id in s.txs
  {
    s.(txs := At(s.txs, id, phase))
  }

  function Released<K>(held: map<K, nat>, id: nat): map<K, nat> {
    map k | k in held && held[k] != id :: held[k]
  }

  /** The end of a transaction frees its row and its address. */
  function End(s: Sys, id: nat, outcome: Outcome): Sys
    requires id in s.txs
  {
    To(s, id, Finished(outcome)).(locks := Released(s.locks, id), claims := Released(s.claims, id))
  }

  /** What the locking read finds wrong. */
  function Finding(invites: Invites, resets: Resets, job: Job): Option<Outcome> {
    match job
    case Register(token, _, _) =>
      if token !in invites then Some(Unknown)
      else if invites[token].Some? then Some(Used)
      else None
    case Reset(token, _, now) =>
      if token !in resets then Some(Unknown)
      else if resets[token].usedBy.Some? then Some(Used)
      else if StrLess(resets[token].expiresAt, now) then Some(Expired)
      else None
  }

  function UsersAfter(users: Users, resets: Resets, job: Job, id: nat): Users {
    match job
    case Register(_, email, password) => users[NewUser(id) := User(email, password)]
    case Reset(token, password, _) =>
      if token in resets && resets[token].user in users
      then users[resets[token].user := users[resets[token].user].(password := password)]
      else users
  }

  function InvitesAfter(invites: Invites, job: Job, id: nat): Invites {
    if job.Register? then invites[job.token := Some(NewUser(id))] else invites
  }

  function ResetsAfter(resets: Resets, job: Job, id: nat): Resets {
    if job.Reset? && job.token in resets then resets[job.token := resets[job.token].(usedBy := Some(id))] else resets
  }

  ghost predicate Next(s: Sys, step: Step, s': Sys) {
    match step
    case IssueInvite(token) =>
      token !in s.invites && s' == s.(invites := s.invites[token := None])
    case IssueReset(token, user, expiresAt) =>
      token !in s.resets && s' == s.(resets := s.resets[token := ResetRow(user, expiresAt, None)])
    case Tick(now) =>
      IsoTimestamps.Instant(s.clock) <= IsoTimestamps.Instant(now) && s' == s.(clock := now)
    case Begin(id, job) =>
      // a reset reads the clock first
      && id !in s.txs && (job.Reset? ==> job.now == IsoTimestamps.IsoFormat(s.clock))
      && s' == s.(txs := s.txs[id := Tx(job, Begun)])
    case Lock(id) =>
      && id in s.txs && s.txs[id].phase.Begun?
      && KeyOf(s.txs[id].job) !in s.locks           // otherwise it waits
      && var found := Finding(s.invites, s.resets, s.txs[id].job);
      && s' == if found.Some? then End(s, id, found.value)
               else To(s, id, Holding).(locks := s.locks[KeyOf(s.txs[id].job) := id])
    case CheckEmail(id) =>
      && id in s.txs && s.txs[id].phase.Holding? && s.txs[id].job.Register?
      && s' == if EmailTaken(s.users, s.txs[id].job.email) then End(s, id, Taken) else To(s, id, Checked)
    case WriteUser(id) =>
      && id in s.txs
      && var job := s.txs[id].job;
      && if job.Register? then
           s.txs[id].phase.Checked?
           && job.email !in s.claims                 // otherwise it waits for that insert to end
           && s' == if EmailTaken(s.users, job.email) then End(s, id, Aborted)
                    else To(s, id, Written).(claims := s.claims[job.email := id])
         else
           s.txs[id].phase.Holding? && s' == To(s, id, Written)
    case MarkUsed(id) =>
      id in s.txs && s.txs[id].phase.Written? && s' == To(s, id, Marked)
    case Commit(id) =>
      && id in s.txs && s.txs[id].phase.Marked?
      && var job := s.txs[id].job;
      && s' == End(s, id, Committed).(users := UsersAfter(s.users, s.resets, job, id),
                                      invites := InvitesAfter(s.invites, job, id),
                                      resets := ResetsAfter(s.resets, job, id))
    case Abort(id) =>
      id in s.txs && !s.txs[id].phase.Finished? && s' == End(s, id, Aborted)
  }

  // ---------------------------------------------------------------- what every step keeps

  /** A transaction past its locking read owns the lock of its row, and no other does. */
  ghost predicate LockInv(txs: Txs, locks: map<Key, nat>) {
    && (forall k :: k in locks ==> locks[k] in txs && Holds(txs[locks[k]].phase) && KeyOf(txs[locks[k]].job) == k)
    && (forall id :: id in txs && Holds(txs[id].phase) ==> KeyOf(txs[id].job) in locks && locks[KeyOf(txs[id].job)] == id)
  }

  predicate IsCommitted(tx: Tx) {
    tx.phase == Finished(Committed)
  }

  /** The row a committed transaction left behind: marked as used by it, and a reset not by then expired. */
  predicate Spent(invites: Invites, resets: Resets, job: Job, id: nat) {
    match job
    case Register(token, _, _) => token in invites && invites[token] == Some(NewUser(id))
    case Reset(token, _, now) =>
      token in resets && resets[token].usedBy == Some(id) && !StrLess(resets[token].expiresAt, now)
  }

  /** The row of an open transaction is still good, that of a committed one is spent. */
  ghost predicate RowInv(txs: Txs, invites: Invites, resets: Resets) {
    && (forall id :: id in txs && Holds(txs[id].phase) ==> Finding(invites, resets, txs[id].job).None?)
    && (forall id :: id in txs && IsCommitted(txs[id]) ==> Spent(invites, resets, txs[id].job, id))
  }

  predicate Wrote(tx: Tx) {
    tx.job.Register? && (tx.phase.Written? || tx.phase.Marked?)
  }

  ghost predicate ClaimInv(txs: Txs, claims: map<string, nat>) {
    && (forall e :: e in claims ==> claims[e] in txs && Wrote(txs[claims[e]]) && txs[claims[e]].job.email == e)
    && (forall id :: id in txs && Wrote(txs[id]) ==> txs[id].job.email in claims && claims[txs[id].job.email] == id)
  }

  ghost predicate EmailInv(claims: map<string, nat>, users: Users) {
    && (forall u, v :: u in users && v in users && u != v ==> users[u].email != users[v].email)
    && (forall e :: e in claims ==> !EmailTaken(users, e))
  }

  predicate Registered(txs: Txs, id: nat) {
    id in txs && IsCommitted(txs[id]) && txs[id].job.Register?
  }

  /** New users and used invites are those of committed registrations. */
  ghost predicate TableInv(txs: Txs, users: set<UserId>, invites: Invites, base: set<UserId>) {
    && (forall u :: u in base ==> u in users && u.Existing?)
    && (forall u :: u in users && u !in base ==> u.NewUser?)
    && (forall id :: NewUser(id) in users <==> Registered(txs, id))
    && (forall t :: t in invites && invites[t].Some? ==>
          invites[t].value.NewUser? && Registered(txs, invites[t].value.tx) && txs[invites[t].value.tx].job.token == t)
  }

  ghost predicate Inv(s: Sys, base: set<UserId>) {
    && LockInv(s.txs, s.locks)
    && RowInv(s.txs, s.invites, s.resets)
    && ClaimInv(s.txs, s.claims)
    && EmailInv(s.claims, s.users)
    && TableInv(s.txs, s.users.Keys, s.invites, base)
  }

  lemma {:induction false} EndLocks(txs: Txs, locks: map<Key, nat>, id: nat, outcome: Outcome)
    requires LockInv(txs, locks) && id in txs
    ensures LockInv(At(txs, id, Finished(outcome)), Released(locks, id))
  {
  }

  lemma {:induction false} EndClaims(txs: Txs, claims: map<string, nat>, id: nat, outcome: Outcome)
    requires ClaimInv(txs, claims) && id in txs
    ensures ClaimInv(At(txs, id, Finished(outcome)), Released(claims, id))
  {
  }

  lemma {:induction false} EndEmails(claims: map<string, nat>, users: Users, id: nat)
    requires EmailInv(claims, users)
    ensures EmailInv(Released(claims, id), users)
  {
  }

  lemma {:induction false} PhaseRows(txs: Txs, id: nat, phase: Phase, invites: Invites, resets: Resets)
    requires RowInv(txs, invites, resets) && id in txs && phase != Finished(Committed)
    requires Holds(phase) ==> Finding(invites, resets, txs[id].job).None?
    ensures RowInv(At(txs, id, phase), invites, resets)
  {
  }

  lemma {:induction false} PhaseTables(txs: Txs, id: nat, phase: Phase, users: set<UserId>, invites: Invites,
                                       base: set<UserId>)
    requires TableInv(txs, users, invites, base) && id in txs && phase != Finished(Committed) && !IsCommitted(txs[id])
    ensures TableInv(At(txs, id, phase), users, invites, base)
  {
    var txs' := At(txs, id, phase);
    forall n ensures Registered(txs', n) <==> Registered(txs, n) {
    }
    forall n | n in txs ensures txs'[n].job == txs[n].job {
    }
  }

  lemma {:induction false} EndKeepsInv(s: Sys, id: nat, outcome: Outcome, base: set<UserId>)
    requires Inv(s, base) && id in s.txs && !s.txs[id].phase.Finished? && outcome != Committed
    ensures Inv(End(s, id, outcome), base)
  {
    EndLocks(s.txs, s.locks, id, outcome);
    EndClaims(s.txs, s.claims, id, outcome);
    EndEmails(s.claims, s.users, id);
    PhaseRows(s.txs, id, Finished(outcome), s.invites, s.resets);
    PhaseTables(s.txs, id, Finished(outcome), s.users.Keys, s.invites, base);
  }

  lemma {:induction false} PhaseLocks(txs: Txs, locks: map<Key, nat>, id: nat, phase: Phase)
    requires LockInv(txs, locks) && id in txs && Holds(txs[id].phase) && Holds(phase)
    ensures LockInv(At(txs, id, phase), locks)
  {
  }

  lemma {:induction false} AcquireLocks(txs: Txs, locks: map<Key, nat>, id: nat)
    requires LockInv(txs, locks) && id in txs && txs[id].phase.Begun? && KeyOf(txs[id].job) !in locks
    ensures LockInv(At(txs, id, Holding), locks[KeyOf(txs[id].job) := id])
  {
  }

  lemma {:induction false} PhaseClaims(txs: Txs, claims: map<string, nat>, id: nat, phase: Phase)
    requires ClaimInv(txs, claims) && id in txs && Wrote(txs[id]) == Wrote(txs[id].(phase := phase))
    ensures ClaimInv(At(txs, id, phase), claims)
  {
  }

  lemma {:induction false} MakeClaim(txs: Txs, claims: map<string, nat>, id: nat)
    requires ClaimInv(txs, claims) && id in txs && txs[id].phase.Checked? && txs[id].job.Register?
    requires txs[id].job.email !in claims
    ensures ClaimInv(At(txs, id, Written), claims[txs[id].job.email := id])
  {
  }

  /** A step within a transaction, its claim aside. */
  lemma {:induction false} PhaseKeepsInv(s: Sys, id: nat, phase: Phase, base: set<UserId>)
    requires Inv(s, base) && id in s.txs && Holds(s.txs[id].phase) && Holds(phase)
    requires Wrote(s.txs[id]) == Wrote(s.txs[id].(phase := phase))
    ensures Inv(To(s, id, phase), base)
  {
    PhaseLocks(s.txs, s.locks, id, phase);
    PhaseClaims(s.txs, s.claims, id, phase);
    PhaseRows(s.txs, id, phase, s.invites, s.resets);
    PhaseTables(s.txs, id, phase, s.users.Keys, s.invites, base);
  }

  lemma {:induction false} LockKeepsInv(s: Sys, id: nat, s': Sys, base: set<UserId>)
    requires Inv(s, base) && Next(s, Lock(id), s')
    ensures Inv(s', base)
  {
    var found := Finding(s.invites, s.resets, s.txs[id].job);
    if found.Some? {
      EndKeepsInv(s, id, found.value, base);
    } else {
      AcquireLocks(s.txs, s.locks, id);
      PhaseClaims(s.txs, s.claims, id, Holding);
      PhaseRows(s.txs, id, Holding, s.invites, s.resets);
      PhaseTables(s.txs, id, Holding, s.users.Keys, s.invites, base);
    }
  }

  lemma {:induction false} WriteKeepsInv(s: Sys, id: nat, s': Sys, base: set<UserId>)
    requires Inv(s, base) && Next(s, WriteUser(id), s')
    ensures Inv(s', base)
  {
    var job := s.txs[id].job;
    if job.Reset? {
      PhaseKeepsInv(s, id, Written, base);
    } else if EmailTaken(s.users, job.email) {
      EndKeepsInv(s, id, Aborted, base);
    } else {
      MakeClaim(s.txs, s.claims, id);
      PhaseLocks(s.txs, s.locks, id, Written);
      PhaseRows(s.txs, id, Written, s.invites, s.resets);
      PhaseTables(s.txs, id, Written, s.users.Keys, s.invites, base);
    }
  }

  lemma {:induction false} InviteKeepsInv(s: Sys, token: string, s': Sys, base: set<UserId>)
    requires Inv(s, base) && Next(s, IssueInvite(token), s')
    ensures Inv(s', base)
  {
    assert RowInv(s'.txs, s'.invites, s'.resets);
    assert TableInv(s'.txs, s'.users.Keys, s'.invites, base);
  }

  lemma {:induction false} ResetKeepsInv(s: Sys, token: string, user: UserId, expiresAt: string, s': Sys,
                                         base: set<UserId>)
    requires Inv(s, base) && Next(s, IssueReset(token, user, expiresAt), s')
    ensures Inv(s', base)
  {
    assert RowInv(s'.txs, s'.invites, s'.resets);
  }

  lemma {:induction false} BeginRows(txs: Txs, id: nat, tx: Tx, invites: Invites, resets: Resets, users: set<UserId>,
                                     base: set<UserId>)
    requires RowInv(txs, invites, resets) && TableInv(txs, users, invites, base) && id !in txs && tx.phase.Begun?
    ensures RowInv(txs[id := tx], invites, resets) && TableInv(txs[id := tx], users, invites, base)
  {
    forall n ensures Registered(txs[id := tx], n) <==> Registered(txs, n) {
    }
  }

  lemma {:induction false} BeginLocks(txs: Txs, id: nat, tx: Tx, locks: map<Key, nat>, claims: map<string, nat>)
    requires LockInv(txs, locks) && ClaimInv(txs, claims) && id !in txs && tx.phase.Begun?
    ensures LockInv(txs[id := tx], locks) && ClaimInv(txs[id := tx], claims)
  {
  }

  /** Nobody else holds the row that a commit writes, and nobody had committed on it. */
  lemma {:induction false} CommitRows(txs: Txs, locks: map<Key, nat>, invites: Invites, resets: Resets, id: nat)
    requires LockInv(txs, locks) && RowInv(txs, invites, resets) && id in txs && txs[id].phase.Marked?
    ensures RowInv(At(txs, id, Finished(Committed)), InvitesAfter(invites, txs[id].job, id), ResetsAfter(resets, txs[id].job, id))
  {
    var job := txs[id].job;
    forall t | t in txs && t != id && (Holds(txs[t].phase) || IsCommitted(txs[t]))
      ensures KeyOf(txs[t].job) != KeyOf(job)
    {
      if IsCommitted(txs[t]) {
        assert Spent(invites, resets, txs[t].job, t) && Finding(invites, resets, job).None?;
      }
    }
  }

  lemma {:induction false} CommitEmails(txs: Txs, claims: map<string, nat>, users: Users, resets: Resets, id: nat)
    requires ClaimInv(txs, claims) && EmailInv(claims, users) && id in txs && txs[id].phase.Marked?
    requires txs[id].job.Register? ==> NewUser(id) !in users
    ensures EmailInv(Released(claims, id), UsersAfter(users, resets, txs[id].job, id))
  {
    var job := txs[id].job;
    var users' := UsersAfter(users, resets, job, id);
    if job.Register? {
      assert Wrote(txs[id]) && !EmailTaken(users, job.email);
      forall u | u in users ensures users[u].email != job.email {
      }
    }
    forall e | e in Released(claims, id) ensures !EmailTaken(users', e) {
      assert !EmailTaken(users, e);
      assert e in claims && claims[e] != id;
    }
  }

  lemma {:induction false} CommitTables(txs: Txs, users: Users, invites: Invites, resets: Resets, base: set<UserId>,
                                        id: nat)
    requires TableInv(txs, users.Keys, invites, base) && id in txs && txs[id].phase.Marked?
    requires Finding(invites, resets, txs[id].job).None?
    ensures TableInv(At(txs, id, Finished(Committed)), UsersAfter(users, resets, txs[id].job, id).Keys,
                     InvitesAfter(invites, txs[id].job, id), base)
  {
    var job := txs[id].job;
    var txs' := At(txs, id, Finished(Committed));
    var users' := UsersAfter(users, resets, job, id);
    assert users'.Keys == if job.Register? then users.Keys + {NewUser(id)} else users.Keys;
    forall n ensures Registered(txs', n) <==> Registered(txs, n) || (n == id && job.Register?) {
    }
    forall n | n in txs ensures txs'[n].job == txs[n].job {
    }
  }

  lemma {:induction false} CommitKeepsInv(s: Sys, id: nat, s': Sys, base: set<UserId>)
    requires Inv(s, base) && Next(s, Commit(id), s')
    ensures Inv(s', base)
  {
    EndLocks(s.txs, s.locks, id, Committed);
    EndClaims(s.txs, s.claims, id, Committed);
    assert !Registered(s.txs, id);
    CommitRows(s.txs, s.locks, s.invites, s.resets, id);
    CommitEmails(s.txs, s.claims, s.users, s.resets, id);
    CommitTables(s.txs, s.users, s.invites, s.resets, base, id);
  }

  lemma {:induction false} NextKeepsInv(s: Sys, step: Step, s': Sys, base: set<UserId>)
    requires Inv(s, base) && Next(s, step, s')
    ensures Inv(s', base)
  {
    match step
    case IssueInvite(token) => InviteKeepsInv(s, token, s', base);
    case IssueReset(token, user, expiresAt) => ResetKeepsInv(s, token, user, expiresAt, s', base);
    case Tick(_) =>
    case Begin(id, job) =>
      BeginRows(s.txs, id, Tx(job, Begun), s.invites, s.resets, s.users.Keys, base);
      BeginLocks(s.txs, id, Tx(job, Begun), s.locks, s.claims);
    case Lock(id) => LockKeepsInv(s, id, s', base);
    case CheckEmail(id) =>
      if EmailTaken(s.users, s.txs[id].job.email) {
        EndKeepsInv(s, id, Taken, base);
      } else {
        PhaseKeepsInv(s, id, Checked, base);
      }
    case WriteUser(id) => WriteKeepsInv(s, id, s', base);
    case MarkUsed(id) => PhaseKeepsInv(s, id, Marked, base);
    case Commit(id) => CommitKeepsInv(s, id, s', base);
    case Abort(id) => EndKeepsInv(s, id, Aborted, base);
  }

  // ---------------------------------------------------------------- every run

  /** A run from any users with distinct addresses; invites and resets are issued on the way. */
  ghost predicate Run(states: seq<Sys>, steps: seq<Step>, users: Users) {
    && |states| == |steps| + 1 && states[0] == Sys(users, map[], map[], map[], map[], map[], states[0].clock)
    && (forall u :: u in users ==> u.Existing?)
    && (forall u, v :: u in users && v in users && u != v ==> users[u].email != users[v].email)
    && forall i :: 0 <= i < |steps| ==> Next(states[i], steps[i], states[i + 1])
  }

  lemma {:induction false} RunKeepsInv(states: seq<Sys>, steps: seq<Step>, users: Users, i: nat)
    requires Run(states, steps, users) && i < |states|
    ensures Inv(states[i], users.Keys)
  {
    if i == 0 {
    } else {
      RunKeepsInv(states, steps, users, i - 1);
      NextKeepsInv(states[i - 1], steps[i - 1], states[i], users.Keys);
    }
  }

  /** Used invites and who they made. */
  function UsedInvites(invites: Invites): map<string, UserId> {
    map t | t in invites && invites[t].Some? :: invites[t].value
  }

  lemma {:induction false} CountInjective<K(!new), V(!new)>(m: map<K, V>, values: set<V>)
    requires forall a, b :: a in m && b in m && m[a] == m[b] ==> a == b
    requires forall v :: v in values <==> exists k :: k in m && m[k] == v
    ensures |values| == |m|
    decreases |m|
  {
    if m.Keys == {} {
      assert m == map[] && values == {};
    } else {
      var k :| k in m;
      var rest := m - {k};
      assert m.Keys == rest.Keys + {k};
      forall v ensures v in values - {m[k]} <==> exists j :: j in rest && rest[j] == v {
        if v in values - {m[k]} {
          var j :| j in m && m[j] == v;
          assert j in rest && rest[j] == v;
        }
      }
      CountInjective(rest, values - {m[k]});
    }
  }

  /**
   In every reachable state each used invite made a user of its own, and there are exactly as
   many new users as used invites.
   */
  lemma {:induction false} OneUserPerInvite(states: seq<Sys>, steps: seq<Step>, users: Users, i: nat)
    requires Run(states, steps, users) && i < |states|
    ensures var used := UsedInvites(states[i].invites);
            && (forall a, b :: a in used && b in used && used[a] == used[b] ==> a == b)
            && (forall u :: u in states[i].users.Keys - users.Keys <==> exists t :: t in used && used[t] == u)
            && |states[i].users.Keys - users.Keys| == |used|
  {
    RunKeepsInv(states, steps, users, i);
    var s := states[i];
    var used := UsedInvites(s.invites);
    forall u ensures u in s.users.Keys - users.Keys <==> exists t :: t in used && used[t] == u {
      if u in s.users.Keys - users.Keys {
        var job := s.txs[u.tx].job;
        assert Registered(s.txs, u.tx) && Spent(s.invites, s.resets, job, u.tx);
        assert job.token in used && used[job.token] == u;
      }
    }
    CountInjective(used, s.users.Keys - users.Keys);
  }

  /** Of all transactions on one token, invite or reset, at most one ever commits. */
  lemma {:induction false} OneCommitPerToken(states: seq<Sys>, steps: seq<Step>, users: Users, i: nat, a: nat, b: nat)
    requires Run(states, steps, users) && i < |states| && a in states[i].txs && b in states[i].txs
    requires IsCommitted(states[i].txs[a]) && IsCommitted(states[i].txs[b])
    requires KeyOf(states[i].txs[a].job) == KeyOf(states[i].txs[b].job)
    ensures a == b
  {
    RunKeepsInv(states, steps, users, i);
    var s := states[i];
    assert Spent(s.invites, s.resets, s.txs[a].job, a) && Spent(s.invites, s.resets, s.txs[b].job, b);
  }

  /**
   How the locking read ends a transaction: as unknown exactly if there is no such token, as used
   exactly if it is marked, as expired exactly if a reset's expiry lies before the time it read.
   */
  lemma {:induction false} LockFinds(s: Sys, id: nat, s': Sys)
    requires Next(s, Lock(id), s')
    ensures id in s.txs && id in s'.txs
    ensures var job, phase := s.txs[id].job, s'.txs[id].phase;
            if job.Register? then
              && (phase == Finished(Unknown) <==> job.token !in s.invites)
              && (phase == Finished(Used) <==> job.token in s.invites && s.invites[job.token] != None)
              && (phase == Holding <==> job.token in s.invites && s.invites[job.token] == None)
            else
              var known, row := job.token in s.resets, if job.token in s.resets then Some(s.resets[job.token]) else None;
              && (phase == Finished(Unknown) <==> !known)
              && (phase == Finished(Used) <==> known && row.value.usedBy != None)
              && (phase == Finished(Expired) <==>
                    known && row.value.usedBy == None && StrLess(row.value.expiresAt, job.now))
              && (phase == Holding <==>
                    known && row.value.usedBy == None && !StrLess(row.value.expiresAt, job.now))
  {
    LockMoves(s, id, s');
  }

  /** A registration ends as taken exactly if some user has the address when it looks. */
  lemma {:induction false} CheckFinds(s: Sys, id: nat, s': Sys)
    requires Next(s, CheckEmail(id), s')
    ensures id in s.txs && id in s'.txs && s.txs[id].job.Register?
    ensures s'.txs[id].phase
         == if exists u :: u in s.users && s.users[u].email == s.txs[id].job.email then Finished(Taken) else Checked
  {
  }

  /** A registration shows in both tables if it committed, and in neither if it did not. */
  lemma {:induction false} FailureLeavesNoTrace(states: seq<Sys>, steps: seq<Step>, users: Users, i: nat, id: nat)
    requires Run(states, steps, users) && i < |states| && id in states[i].txs && states[i].txs[id].job.Register?
    ensures IsCommitted(states[i].txs[id]) <==> NewUser(id) in states[i].users
    ensures IsCommitted(states[i].txs[id]) <==>
              exists t :: t in states[i].invites && states[i].invites[t] == Some(NewUser(id))
  {
    RunKeepsInv(states, steps, users, i);
    var s := states[i];
    assert Registered(s.txs, id) <==> IsCommitted(s.txs[id]);
    if Registered(s.txs, id) {
      assert Spent(s.invites, s.resets, s.txs[id].job, id);
    }
  }

  /** Every address belongs to one user. */
  lemma {:induction false} OneUserPerEmail(states: seq<Sys>, steps: seq<Step>, users: Users, i: nat, u: UserId,
                                           v: UserId)
    requires Run(states, steps, users) && i < |states|
    requires u in states[i].users && v in states[i].users && states[i].users[u].email == states[i].users[v].email
    ensures u == v
  {
    RunKeepsInv(states, steps, users, i);
  }

  // ---------------------------------------------------------------- resets

  /** Every reset marked as used was used by a committed transaction on that token. */
  ghost predicate UsedInv(txs: Txs, resets: Resets) {
    forall t :: t in resets && resets[t].usedBy.Some? ==>
      var id := resets[t].usedBy.value;
      id in txs && IsCommitted(txs[id]) && txs[id].job.Reset? && txs[id].job.token == t
  }

  // What the steps up to the writes do to the transactions: they move their own one on.

  lemma {:induction false} LockMoves(s: Sys, n: nat, s': Sys)
    requires Next(s, Lock(n), s')
    ensures var found := Finding(s.invites, s.resets, s.txs[n].job);
            s'.txs == At(s.txs, n, if found.Some? then Finished(found.value) else Holding)
    ensures s'.txs[n].phase != Finished(Committed)
  {
  }

  lemma {:induction false} CheckMoves(s: Sys, n: nat, s': Sys)
    requires Next(s, CheckEmail(n), s')
    ensures s'.txs == At(s.txs, n, Finished(Taken)) || s'.txs == At(s.txs, n, Checked)
  {
  }

  lemma {:induction false} WriteMoves(s: Sys, n: nat, s': Sys)
    requires Next(s, WriteUser(n), s')
    ensures s'.txs == At(s.txs, n, Finished(Aborted)) || s'.txs == At(s.txs, n, Written)
  {
  }

  predicate OwnStep(step: Step) {
    step.Lock? || step.CheckEmail? || step.WriteUser? || step.MarkUsed? || step.Commit? || step.Abort?
  }

  /** A step adds a transaction, or moves its own one on, which only a commit makes committed, or leaves them all. */
  ghost predicate Moves(txs: Txs, step: Step, txs': Txs) {
    if step.Begin? then step.id !in txs && txs' == txs[step.id := Tx(step.job, Begun)]
    else if OwnStep(step) then
      && step.id in txs && !txs[step.id].phase.Finished? && step.id in txs'
      && txs' == At(txs, step.id, txs'[step.id].phase)
      && (txs'[step.id].phase == Finished(Committed) ==> step.Commit?)
    else txs' == txs
  }

  predicate EarlyStep(step: Step) {
    step.Lock? || step.CheckEmail? || step.WriteUser?
  }

  lemma {:induction false} EarlyStepMoves(s: Sys, step: Step, s': Sys)
    requires Next(s, step, s') && EarlyStep(step)
    ensures Moves(s.txs, step, s'.txs)
  {
    match step
    case Lock(n) => LockMoves(s, n, s');
    case CheckEmail(n) => CheckMoves(s, n, s');
    case WriteUser(n) => WriteMoves(s, n, s');
  }

  lemma {:induction false} LateStepMoves(s: Sys, step: Step, s': Sys)
    requires Next(s, step, s') && !EarlyStep(step)
    ensures Moves(s.txs, step, s'.txs)
  {
  }

  lemma {:induction false} StepMoves(s: Sys, step: Step, s': Sys)
    requires Next(s, step, s')
    ensures Moves(s.txs, step, s'.txs)
  {
    if EarlyStep(step) {
      EarlyStepMoves(s, step, s');
    } else {
      LateStepMoves(s, step, s');
    }
  }

  lemma {:induction false} CommittedStays(s: Sys, step: Step, s': Sys, id: nat)
    requires Next(s, step, s') && id in s.txs && IsCommitted(s.txs[id])
    ensures id in s'.txs && s'.txs[id] == s.txs[id]
  {
    StepMoves(s, step, s');
  }

  /** Only a commit marks a reset, and marks it with itself. */
  lemma {:induction false} MarkedBy(s: Sys, step: Step, s': Sys, t: string)
    requires Next(s, step, s') && t in s'.resets && s'.resets[t].usedBy.Some?
    ensures (t in s.resets && s.resets[t].usedBy == s'.resets[t].usedBy)
            || (step.Commit? && s'.resets[t].usedBy == Some(step.id)
                && IsCommitted(s'.txs[step.id]) && s'.txs[step.id].job.Reset? && s'.txs[step.id].job.token == t)
  {
  }

  lemma {:induction false} NextKeepsUsed(s: Sys, step: Step, s': Sys)
    requires UsedInv(s.txs, s.resets) && Next(s, step, s')
    ensures UsedInv(s'.txs, s'.resets)
  {
    forall t | t in s'.resets && s'.resets[t].usedBy.Some?
      ensures var id := s'.resets[t].usedBy.value;
              id in s'.txs && IsCommitted(s'.txs[id]) && s'.txs[id].job.Reset? && s'.txs[id].job.token == t
    {
      MarkedBy(s, step, s', t);
      if t in s.resets && s.resets[t].usedBy == s'.resets[t].usedBy {
        CommittedStays(s, step, s', s.resets[t].usedBy.value);
      }
    }
  }

  lemma {:induction false} RunKeepsUsed(states: seq<Sys>, steps: seq<Step>, users: Users, i: nat)
    requires Run(states, steps, users) && i < |states|
    ensures UsedInv(states[i].txs, states[i].resets)
  {
    if i == 0 {
    } else {
      RunKeepsUsed(states, steps, users, i - 1);
      NextKeepsUsed(states[i - 1], steps[i - 1], states[i]);
    }
  }

  /** A reset shows in its row if it committed, and in no row if it did not. */
  lemma {:induction false} ResetShowsIffCommitted(states: seq<Sys>, steps: seq<Step>, users: Users, i: nat, id: nat)
    requires Run(states, steps, users) && i < |states| && id in states[i].txs && states[i].txs[id].job.Reset?
    ensures IsCommitted(states[i].txs[id]) <==>
              exists t :: t in states[i].resets && states[i].resets[t].usedBy == Some(id)
  {
    RunKeepsInv(states, steps, users, i);
    RunKeepsUsed(states, steps, users, i);
    if IsCommitted(states[i].txs[id]) {
      assert Spent(states[i].invites, states[i].resets, states[i].txs[id].job, id);
    }
  }

  /** The step commits a reset of that user's password. */
  predicate SetsPassword(s: Sys, step: Step, u: UserId) {
    && step.Commit? && step.id in s.txs
    && var job := s.txs[step.id].job;
    job.Reset? && job.token in s.resets && s.resets[job.token].user == u
  }

  lemma {:induction false} CommitOnUser(s: Sys, id: nat, s': Sys, u: UserId)
    requires Next(s, Commit(id), s') && u in s.users && (s.txs[id].job.Register? ==> NewUser(id) !in s.users)
    ensures u in s'.users && s'.users[u].email == s.users[u].email
    ensures s'.users[u].password == if SetsPassword(s, Commit(id), u) then s.txs[id].job.password else s.users[u].password
  {
  }

  lemma {:induction false} StepOnUser(states: seq<Sys>, steps: seq<Step>, users: Users, k: nat, u: UserId)
    requires Run(states, steps, users) && k < |steps| && u in states[k].users
    ensures var s, s' := states[k], states[k + 1];
            && u in s'.users && s'.users[u].email == s.users[u].email
            && s'.users[u].password == if SetsPassword(s, steps[k], u) then s.txs[steps[k].id].job.password
                                       else s.users[u].password
  {
    assert Next(states[k], steps[k], states[k + 1]);
    if steps[k].Commit? {
      RunKeepsInv(states, steps, users, k);
      assert !Registered(states[k].txs, steps[k].id);
      CommitOnUser(states[k], steps[k].id, states[k + 1], u);
    } else {
      assert states[k + 1].users == states[k].users;
    }
  }

  /** The last commit between two positions of a reset of that user's password. */
  function LastReset(states: seq<Sys>, steps: seq<Step>, u: UserId, i: nat, k: nat): (j: Option<nat>)
    requires k <= |steps| < |states|
    ensures j.Some? ==> i <= j.value < k && SetsPassword(states[j.value], steps[j.value], u)
    decreases k
  {
    if k <= i then None
    else if SetsPassword(states[k - 1], steps[k - 1], u) then Some(k - 1)
    else LastReset(states, steps, u, i, k - 1)
  }

  /** The password set by the last of these resets, or else the one there was. */
  function PasswordAfter(states: seq<Sys>, steps: seq<Step>, u: UserId, i: nat, k: nat, password: string): string
    requires k <= |steps| < |states|
  {
    var last := LastReset(states, steps, u, i, k);
    if last.Some? then states[last.value].txs[steps[last.value].id].job.password else password
  }

  /**
   Whatever registrations and resets run besides, a user once there keeps its address, and its
   password is that of the last reset of its own that committed, or the one it had.
   */
  lemma {:induction false} PasswordIsLastReset(states: seq<Sys>, steps: seq<Step>, users: Users, i: nat, k: nat,
                                               u: UserId)
    requires Run(states, steps, users) && i <= k < |states| && u in states[i].users
    ensures u in states[k].users && states[k].users[u].email == states[i].users[u].email
    ensures states[k].users[u].password == PasswordAfter(states, steps, u, i, k, states[i].users[u].password)
    decreases k
  {
    if k == i {
    } else {
      PasswordIsLastReset(states, steps, users, i, k - 1, u);
      StepOnUser(states, steps, users, k - 1, u);
    }
  }

  lemma {:induction false} BeganAt(states: seq<Sys>, steps: seq<Step>, users: Users, i: nat, id: nat) returns (j: nat)
    requires Run(states, steps, users) && i < |states| && id in states[i].txs
    ensures j < i && steps[j] == Begin(id, states[i].txs[id].job)
  {
    assert i > 0;
    assert Next(states[i - 1], steps[i - 1], states[i]);
    StepMoves(states[i - 1], steps[i - 1], states[i]);
    if id in states[i - 1].txs {
      j := BeganAt(states, steps, users, i - 1, id);
    } else {
      j := i - 1;
    }
  }

  lemma {:induction false} CommittedAt(states: seq<Sys>, steps: seq<Step>, users: Users, i: nat, id: nat)
    returns (k: nat)
    requires Run(states, steps, users) && i < |states| && id in states[i].txs && IsCommitted(states[i].txs[id])
    ensures k < i && steps[k] == Commit(id) && id in states[k].txs && states[k].txs[id].job == states[i].txs[id].job
  {
    assert i > 0;
    assert Next(states[i - 1], steps[i - 1], states[i]);
    if steps[i - 1] == Commit(id) {
      k := i - 1;
    } else {
      StepMoves(states[i - 1], steps[i - 1], states[i]);
      k := CommittedAt(states, steps, users, i - 1, id);
    }
  }

  /**
   A registration that committed, begun at j and committed at k: the commit adds one user, with
   the address and the password it was begun with, marks the one invite it was begun with, and
   changes nothing else in the two tables.
   */
  lemma {:induction false} RegistrationMakesUser(states: seq<Sys>, steps: seq<Step>, users: Users, i: nat, id: nat)
    returns (j: nat, k: nat, token: string, email: string, password: string)
    requires Run(states, steps, users) && i < |states| && Registered(states[i].txs, id)
    ensures j < k < i && steps[j] == Begin(id, Register(token, email, password)) && steps[k] == Commit(id)
    ensures states[i].txs[id].job == Register(token, email, password)
    ensures NewUser(id) !in states[k].users && token in states[k].invites && states[k].invites[token] == None
    ensures states[k + 1].users == states[k].users[NewUser(id) := User(email, password)]
    ensures states[k + 1].invites == states[k].invites[token := Some(NewUser(id))]
  {
    k := CommittedAt(states, steps, users, i, id);
    j := BeganAt(states, steps, users, k, id);
    var job := states[k].txs[id].job;
    token, email, password := job.token, job.email, job.password;
    RunKeepsInv(states, steps, users, k);
    assert Next(states[k], steps[k], states[k + 1]);
    assert !Registered(states[k].txs, id) && Finding(states[k].invites, states[k].resets, job).None?;
  }

  /**
   From its commit on a registered user has the address it registered with, and the password of
   the last reset of its own that committed since, or else the one it registered with.
   */
  lemma {:induction false} RegisteredUserIs(states: seq<Sys>, steps: seq<Step>, users: Users, i: nat, id: nat)
    returns (k: nat)
    requires Run(states, steps, users) && i < |states| && Registered(states[i].txs, id)
    ensures k < i && steps[k] == Commit(id) && NewUser(id) in states[i].users
    ensures var job, user := states[i].txs[id].job, states[i].users[NewUser(id)];
            && user.email == job.email
            && user.password == PasswordAfter(states, steps, NewUser(id), k + 1, i, job.password)
            && job.token in states[i].invites && states[i].invites[job.token] == Some(NewUser(id))
  {
    var j, token, email, password;
    j, k, token, email, password := RegistrationMakesUser(states, steps, users, i, id);
    PasswordIsLastReset(states, steps, users, k + 1, i, NewUser(id));
    InviteStaysMarked(states, steps, users, i, id);
  }

  lemma {:induction false} InviteStaysMarked(states: seq<Sys>, steps: seq<Step>, users: Users, i: nat, id: nat)
    requires Run(states, steps, users) && i < |states| && Registered(states[i].txs, id)
    ensures var token := states[i].txs[id].job.token;
            token in states[i].invites && states[i].invites[token] == Some(NewUser(id))
  {
    RunKeepsInv(states, steps, users, i);
    assert Spent(states[i].invites, states[i].resets, states[i].txs[id].job, id);
  }

  /** A password reset that committed had begun at a moment not past the expiry of its token. */
  lemma {:induction false} ResetIsInTime(states: seq<Sys>, steps: seq<Step>, users: Users, i: nat, id: nat,
                                         expires: IsoTimestamps.Moment) returns (j: nat)
    requires Run(states, steps, users) && i < |states| && id in states[i].txs
    requires IsCommitted(states[i].txs[id]) && states[i].txs[id].job.Reset?
    requires var token := states[i].txs[id].job.token;
             token in states[i].resets ==> states[i].resets[token].expiresAt == IsoTimestamps.IsoFormat(expires)
    ensures j < i && steps[j] == Begin(id, states[i].txs[id].job)
    ensures IsoTimestamps.Instant(states[j].clock) <= IsoTimestamps.Instant(expires)
  {
    RunKeepsInv(states, steps, users, i);
    assert Spent(states[i].invites, states[i].resets, states[i].txs[id].job, id);
    j := BeganAt(states, steps, users, i, id);
    assert Next(states[j], steps[j], states[j + 1]);
    IsoTimestamps.TextOrderIsInstantOrder(expires, states[j].clock);
  }

  lemma {:induction false} ExtendRun(states: seq<Sys>, steps: seq<Step>, users: Users, step: Step, s: Sys)
    requires Run(states, steps, users) && Next(states[|steps|], step, s)
    ensures Run(states + [s], steps + [step], users)
  {
    var states', steps' := states + [s], steps + [step];
    forall i | 0 <= i < |steps'| ensures Next(states'[i], steps'[i], states'[i + 1]) {
      if i < |steps| {
        assert Next(states[i], steps[i], states[i + 1]);
      }
    }
  }

  lemma {:induction false} ResetBegun(u: UserId, user: User, row: ResetRow, job: Job, start: IsoTimestamps.Moment)
    returns (states: seq<Sys>, steps: seq<Step>)
    requires u.Existing? && row.user == u && row.usedBy.None?
    requires job.Reset? && job.now == IsoTimestamps.IsoFormat(start)
    ensures Run(states, steps, map[u := user]) && |steps| == 2
    ensures states[2] == Sys(map[u := user], map[], map[job.token := row], map[0 := Tx(job, Begun)], map[], map[], start)
  {
    var s0 := Sys(map[u := user], map[], map[], map[], map[], map[], start);
    var s1 := s0.(resets := map[job.token := row]);
    assert Run([s0], [], map[u := user]);
    ExtendRun([s0], [], map[u := user], IssueReset(job.token, u, row.expiresAt), s1);
    states, steps := [s0] + [s1], [] + [IssueReset(job.token, u, row.expiresAt)];
    var s2 := s1.(txs := map[0 := Tx(job, Begun)]);
    ExtendRun(states, steps, map[u := user], Begin(0, job), s2);
    states, steps := states + [s2], steps + [Begin(0, job)];
  }

  lemma {:induction false} ResetLocked(u: UserId, user: User, row: ResetRow, job: Job, start: IsoTimestamps.Moment)
    returns (states: seq<Sys>, steps: seq<Step>)
    requires u.Existing? && row.user == u && row.usedBy.None?
    requires job.Reset? && job.now == IsoTimestamps.IsoFormat(start) && !StrLess(row.expiresAt, job.now)
    ensures Run(states, steps, map[u := user]) && |steps| == 3
    ensures states[3] == Sys(map[u := user], map[], map[job.token := row], map[0 := Tx(job, Holding)],
                             map[ResetKey(job.token) := 0], map[], start)
  {
    states, steps := ResetBegun(u, user, row, job, start);
    var s3 := states[2].(txs := map[0 := Tx(job, Holding)], locks := map[ResetKey(job.token) := 0]);
    ExtendRun(states, steps, map[u := user], Lock(0), s3);
    states, steps := states + [s3], steps + [Lock(0)];
  }

  /** A reset that has been found good and has done its writes, but for the commit. */
  lemma {:induction false} ResetUpToCommit(u: UserId, user: User, token: string, password: string,
                                           start: IsoTimestamps.Moment, expires: IsoTimestamps.Moment)
    returns (states: seq<Sys>, steps: seq<Step>)
    requires u.Existing? && IsoTimestamps.Instant(start) <= IsoTimestamps.Instant(expires)
    ensures Run(states, steps, map[u := user]) && |steps| == 5
    ensures var job := Reset(token, password, IsoTimestamps.IsoFormat(start));
            states[5] == Sys(map[u := user], map[], map[token := ResetRow(u, IsoTimestamps.IsoFormat(expires), None)],
                             map[0 := Tx(job, Marked)], map[ResetKey(token) := 0], map[], start)
  {
    var job := Reset(token, password, IsoTimestamps.IsoFormat(start));
    IsoTimestamps.TextOrderIsInstantOrder(expires, start);
    states, steps := ResetLocked(u, user, ResetRow(u, IsoTimestamps.IsoFormat(expires), None), job, start);
    var s4 := states[3].(txs := map[0 := Tx(job, Written)]);
    ExtendRun(states, steps, map[u := user], WriteUser(0), s4);
    var s5 := s4.(txs := map[0 := Tx(job, Marked)]);
    ExtendRun(states + [s4], steps + [WriteUser(0)], map[u := user], MarkUsed(0), s5);
    states, steps := states + [s4] + [s5], steps + [WriteUser(0)] + [MarkUsed(0)];
  }

  /** The clock is read once, so a reset that began in time may set the password after its token expired. */
  lemma {:induction false} ResetAfterExpiry(u: UserId, user: User, token: string, password: string,
                                            start: IsoTimestamps.Moment, expires: IsoTimestamps.Moment,
                                            late: IsoTimestamps.Moment)
    returns (states: seq<Sys>, steps: seq<Step>)
    requires u.Existing? && IsoTimestamps.Instant(start) <= IsoTimestamps.Instant(expires)
    requires IsoTimestamps.Instant(expires) < IsoTimestamps.Instant(late)
    ensures Run(states, steps, map[u := user]) && |steps| == 7 && steps[6] == Commit(0)
    ensures states[6].clock == late && token in states[6].resets
    ensures states[6].resets[token].expiresAt == IsoTimestamps.IsoFormat(expires)
    ensures u in states[7].users && states[7].users[u].password == password
  {
    states, steps := ResetUpToCommit(u, user, token, password, start, expires);
    var s6 := states[5].(clock := late);
    ExtendRun(states, steps, map[u := user], Tick(late), s6);
    states, steps := states + [s6], steps + [Tick(late)];
    var job := s6.txs[0].job;
    var s7 := End(s6, 0, Committed).(users := UsersAfter(s6.users, s6.resets, job, 0),
                                     invites := InvitesAfter(s6.invites, job, 0),
                                     resets := ResetsAfter(s6.resets, job, 0));
    ExtendRun(states, steps, map[u := user], Commit(0), s7);
    states, steps := states + [s7], steps + [Commit(0)];
  }

  /** A transaction can be given up at any moment, and then holds neither row nor address. */
  lemma {:induction false} AnyMayAbort(s: Sys, id: nat)
    requires id in s.txs && !s.txs[id].phase.Finished?
    ensures var s' := s.(txs := s.txs[id := Tx(s.txs[id].job, Finished(Aborted))],
                         locks := map k | k in s.locks && s.locks[k] != id :: s.locks[k],
                         claims := map e | e in s.claims && s.claims[e] != id :: s.claims[e]);
            Next(s, Abort(id), s')
  {
  }

  lemma {:induction false} InviteBegun(users: Users, token: string, job: Job, clock: IsoTimestamps.Moment)
    returns (states: seq<Sys>, steps: seq<Step>)
    requires (forall u :: u in users ==> u.Existing?)
    requires forall u, v :: u in users && v in users && u != v ==> users[u].email != users[v].email
    requires job.Register? && job.token == token
    ensures Run(states, steps, users) && |steps| == 3
    ensures states[3] == Sys(users, map[token := None], map[], map[0 := Tx(job, Holding)], map[InviteKey(token) := 0],
                             map[], clock)
  {
    var s0 := Sys(users, map[], map[], map[], map[], map[], clock);
    var s1 := s0.(invites := map[token := None]);
    assert Run([s0], [], users);
    ExtendRun([s0], [], users, IssueInvite(token), s1);
    states, steps := [s0] + [s1], [] + [IssueInvite(token)];
    var s2 := s1.(txs := map[0 := Tx(job, Begun)]);
    ExtendRun(states, steps, users, Begin(0, job), s2);
    states, steps := states + [s2], steps + [Begin(0, job)];
    var s3 := s2.(txs := map[0 := Tx(job, Holding)], locks := map[InviteKey(token) := 0]);
    ExtendRun(states, steps, users, Lock(0), s3);
    states, steps := states + [s3], steps + [Lock(0)];
  }

  lemma {:induction false} RegistrationWritten(users: Users, token: string, email: string, password: string,
                                               clock: IsoTimestamps.Moment)
    returns (states: seq<Sys>, steps: seq<Step>)
    requires (forall u :: u in users ==> u.Existing?)
    requires forall u, v :: u in users && v in users && u != v ==> users[u].email != users[v].email
    requires !EmailTaken(users, email)
    ensures Run(states, steps, users) && |steps| == 5
    ensures states[5] == Sys(users, map[token := None], map[], map[0 := Tx(Register(token, email, password), Written)],
                             map[InviteKey(token) := 0], map[email := 0], clock)
  {
    var job := Register(token, email, password);
    states, steps := InviteBegun(users, token, job, clock);
    var s4 := states[3].(txs := map[0 := Tx(job, Checked)]);
    ExtendRun(states, steps, users, CheckEmail(0), s4);
    states, steps := states + [s4], steps + [CheckEmail(0)];
    var s5 := s4.(txs := map[0 := Tx(job, Written)], claims := map[email := 0]);
    ExtendRun(states, steps, users, WriteUser(0), s5);
    states, steps := states + [s5], steps + [WriteUser(0)];
  }

  /** With an unused invite and an address nobody has, a registration can go through, whoever is there. */
  lemma {:induction false} RegistrationCanSucceed(users: Users, token: string, email: string, password: string,
                                                  clock: IsoTimestamps.Moment)
    returns (states: seq<Sys>, steps: seq<Step>)
    requires (forall u :: u in users ==> u.Existing?)
    requires forall u, v :: u in users && v in users && u != v ==> users[u].email != users[v].email
    requires forall u :: u in users ==> users[u].email != email
    ensures Run(states, steps, users) && |states| == 8
    ensures states[7].users == users[NewUser(0) := User(email, password)]
    ensures states[7].invites == map[token := Some(NewUser(0))]
  {
    states, steps := RegistrationWritten(users, token, email, password, clock);
    var job := Register(token, email, password);
    var s6 := states[5].(txs := map[0 := Tx(job, Marked)]);
    ExtendRun(states, steps, users, MarkUsed(0), s6);
    states, steps := states + [s6], steps + [MarkUsed(0)];
    var s7 := End(s6, 0, Committed).(users := UsersAfter(s6.users, s6.resets, job, 0),
                                     invites := InvitesAfter(s6.invites, job, 0),
                                     resets := ResetsAfter(s6.resets, job, 0));
    ExtendRun(states, steps, users, Commit(0), s7);
    states, steps := states + [s7], steps + [Commit(0)];
  }
}
