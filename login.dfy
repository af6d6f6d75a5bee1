/**
 * The login page's lockout (html/login.js): a per-id record of consecutive failures kept in
 * browser storage, a 24-hour lock after the fifth failure, and the submit handler that checks
 * the lock before the credentials.
 */
module Login {
  import opened Text

  const MaxFail: int := 5
  /** 24 hours, in milliseconds. */
  const LockMs: int := 1000 * 60 * 60 * 24

  /** One id's record: failures counted, the lock's end (0 when none), the last failure's time. */
  datatype FailState = FailState(count: int, lockUntil: int, lastFailAt: int)

  const Cleared: FailState := FailState(0, 0, 0)

  /**
   * normalizeFailStateForId: an id without a record reads as cleared (nothing is written);
   * a lock whose end has passed is reset to the cleared record, which is written back.
   */
  function Normalized(failMap: map<string, FailState>, id: string, now: nat): (r: (map<string, FailState>, FailState))
    ensures id !in failMap ==> r == (failMap, Cleared)
    ensures id in failMap && failMap[id].lockUntil != 0 && now >= failMap[id].lockUntil ==> r == (failMap[id := Cleared], Cleared)
    ensures id in failMap && (failMap[id].lockUntil == 0 || now < failMap[id].lockUntil) ==> r == (failMap, failMap[id])
  {
    if id !in failMap then (failMap, Cleared)
    else
      var st := failMap[id];
      if st.lockUntil != 0 && now >= st.lockUntil then (failMap[id := Cleared], Cleared)
      else (failMap, st)
  }

  /** isLocked: the normalised record has a lock that has not yet ended. */
  predicate IsLocked(failMap: map<string, FailState>, id: string, now: nat) {
    var st := Normalized(failMap, id, now).1;
    st.lockUntil != 0 && now < st.lockUntil
  }

  /** Locked exactly while a stored lock has not ended: reading never locks or unlocks by itself. */
  lemma IsLockedIff(failMap: map<string, FailState>, id: string, now: nat)
    ensures IsLocked(failMap, id, now) <==> (id in failMap && failMap[id].lockUntil != 0 && now < failMap[id].lockUntil)
  {
  }

  /**
   * bumpFail: one more failure, capped at MAX_FAIL; the failure that reaches the cap starts
   * a 24-hour lock, and an earlier lock end is otherwise carried over.
   */
  function Bumped(st: FailState, now: nat): (r: FailState)
    ensures r.count <= MaxFail && r.lastFailAt == now
    ensures st.count < MaxFail ==> r.count == st.count + 1
    ensures r.count == MaxFail ==> r.lockUntil == now + LockMs
    ensures r.count < MaxFail ==> r.lockUntil == st.lockUntil
  {
    var nextCount := if st.count + 1 < MaxFail then st.count + 1 else MaxFail;
    FailState(nextCount, if nextCount >= MaxFail then now + LockMs else st.lockUntil, now)
  }

  /**
   * The shape every record this page writes has: a count between 0 and MAX_FAIL, and a lock
   * exactly when the count has reached MAX_FAIL.
   */
  predicate Consistent(failMap: map<string, FailState>) {
    forall id :: id in failMap ==> 0 <= failMap[id].count <= MaxFail && (failMap[id].lockUntil != 0 <==> failMap[id].count == MaxFail)
  }

  /** A user saved by the sign-up page. */
  datatype User = User(memberId: string, name: string, passwordHash: string)

  /** `users.find(u => u.memberId === memberId)`. */
  function FindUser(users: seq<User>, id: string): (r: Option<User>)
    ensures r.Some? ==> r.value in users && r.value.memberId == id
    ensures r.None? ==> forall u :: u in users ==> u.memberId != id
    ensures r.Some? ==> exists i :: 0 <= i < |users| && users[i] == r.value && forall j :: 0 <= j < i ==> users[j].memberId != id
  {
    if users == [] then None
    else if users[0].memberId == id then Some(users[0])
    else FindUser(users[1..], id)
  }

  /**
   * The credential test: the user exists and the stored hash equals the hash of the typed
   * password or the `plain:` fallback form of it. `inputHash` is what `sha256` returned.
   */
  predicate Authenticates(users: seq<User>, id: string, pw: string, inputHash: string) {
    var u := FindUser(users, id);
    u.Some? && (u.value.passwordHash == inputHash || u.value.passwordHash == "plain:" + pw)
  }

  datatype Outcome =
    | Ignored          // an empty id or password: nothing happens
    | LockShown        // the id is locked: the lock dialog opens
    | LoggedIn(user: User)
    | FailShown(count: int)  // the failure line with (count/5)
    | LockedNow        // the fifth failure: the lock dialog opens

  class LoginPage {
    /** The stored per-id failure records. */
    var failMap: map<string, FailState>
    /** The stored users. */
    const users: seq<User>
    /** The session written on success: the member id, if logged in. */
    var session: Option<string>

    constructor(stored: map<string, FailState>, users: seq<User>)
      ensures failMap == stored && this.users == users && session == None
    {
      failMap := stored;
      this.users := users;
      session := None;
    }

    /**
     * The form's submit handler, at time `now`. Empty input does nothing. A locked id opens
     * the lock dialog without checking the password or changing any record. Success clears the
     * id's record; failure bumps it, and the dialog opens when the count reaches MAX_FAIL.
     */
    method Submit(idText: string, pw: string, now: nat, inputHash: string) returns (r: Outcome)
      modifies this
      ensures var id := JsTrim(idText);
        (id == "" || pw == "" ==> r == Ignored && failMap == old(failMap) && session == old(session))
        && (id != "" && pw != "" && IsLocked(old(failMap), id, now) ==> r == LockShown && failMap == old(failMap) && session == old(session))
      ensures var id := JsTrim(idText);
        id != "" && pw != "" && !IsLocked(old(failMap), id, now) ==>
          (Authenticates(users, id, pw, inputHash) <==> r.LoggedIn?)
      ensures r.LoggedIn? ==> (failMap == old(failMap)[JsTrim(idText) := Cleared] && session == Some(JsTrim(idText))
        && r.user == FindUser(users, JsTrim(idText)).value)
      ensures (r.FailShown? || r.LockedNow?) ==>
        var id := JsTrim(idText);
        var (normal, st) := Normalized(old(failMap), id, now);
        failMap == normal[id := Bumped(st, now)] && session == old(session)
        && (r.LockedNow? <==> Bumped(st, now).count == MaxFail)
        && (r.FailShown? ==> r.count == Bumped(st, now).count)
      ensures Consistent(old(failMap)) ==> Consistent(failMap)
    {
      var id := JsTrim(idText);
      if id == "" || pw == "" {
        return Ignored;
      }
      var (normal, st) := Normalized(failMap, id, now);
      failMap := normal;
      if st.lockUntil != 0 && now < st.lockUntil {
        return LockShown;
      }
      var u := FindUser(users, id);
      if u.Some? && (u.value.passwordHash == inputHash || u.value.passwordHash == "plain:" + pw) {
        failMap := failMap[id := Cleared];
        session := Some(id);
        return LoggedIn(u.value);
      }
      var next := Bumped(st, now);
      failMap := failMap[id := next];
      if next.count >= MaxFail {
        r := LockedNow;
      } else {
        r := FailShown(next.count);
      }
    }
  }

  /** Five failures in a row from a clean record lock the id for 24 hours from the fifth. */
  lemma FiveFailuresLock(t1: nat, t2: nat, t3: nat, t4: nat, t5: nat)
    ensures var st := Bumped(Bumped(Bumped(Bumped(Bumped(Cleared, t1), t2), t3), t4), t5);
      st.count == MaxFail && st.lockUntil == t5 + LockMs
  {
  }

  /** Four failures leave the id unlocked. */
  lemma FourFailuresDoNotLock(t1: nat, t2: nat, t3: nat, t4: nat)
    ensures var st := Bumped(Bumped(Bumped(Bumped(Cleared, t1), t2), t3), t4);
      st.count == MaxFail - 1 && st.lockUntil == 0
  {
  }

  /**
   * The lock that starts at the fifth failure, at time `t`, holds for every later moment
   * before `t` + 24 hours, and the first read at or after that moment clears the record.
   */
  lemma LockLastsADay(failMap: map<string, FailState>, id: string, st: FailState, t: nat, later: int)
    requires id in failMap && failMap[id] == Bumped(st, t) && Bumped(st, t).count == MaxFail
    requires t <= later
    ensures IsLocked(failMap, id, later) <==> later < t + LockMs
    ensures later >= t + LockMs ==> Normalized(failMap, id, later) == (failMap[id := Cleared], Cleared)
  {
  }
}
