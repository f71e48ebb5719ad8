/** One-time codes: verification and the account operations that use it
    (hub/icsd_hub/security.py, hub/icsd_hub/auth.py).

    `hotp` stands for the keyed hash: any function of secret and time step.  Time steps are those of
    RFC 6238, and the property is the one-time use asked for in its section 5.2.
 */
module Totp {
  import opened Common

  type Secret = string

  type Hotp = (Secret, int) -> string

  predicate SixDigits(code: string) {
    |code| == 6 && forall i :: 0 <= i < |code| ==> '0' <= code[i] <= '9'
  }

  /** A step near the clock, after the last one used, whose code is `code`. */
  predicate Accepts(hotp: Hotp, secret: Secret, code: string, last: int, step: int, s: int) {
    step - 1 <= s <= step + 1 && s > last && hotp(secret, s) == code
  }

  predicate Blank(c: char) {
    c == ' ' || c == '\t' || c == '\n' || c == '\r'
  }

  function TrimLeft(s: string): string {
    if s == "" || !Blank(s[0]) then s else TrimLeft(s[1..])
  }

  function TrimRight(s: string): string {
    if s == "" || !Blank(s[|s| - 1]) then s else TrimRight(s[..|s| - 1])
  }

  function WithoutSpaces(s: string): string {
    if s == "" then "" else (if s[0] == ' ' then "" else [s[0]]) + WithoutSpaces(s[1..])
  }

  /** What is left of a code as it was typed. */
  function Clean(typed: string): string {
    WithoutSpaces(TrimRight(TrimLeft(typed)))
  }

  /** The matched step, or 0. */
  function VerifyTotp(hotp: Hotp, secret: Secret, typed: string, last: nat, at: int): (r: int)
    ensures r != 0 ==> SixDigits(Clean(typed)) && Accepts(hotp, secret, Clean(typed), last, at / 30, r) && r > 0
    ensures r != 0 ==> forall s :: s < r ==> !Accepts(hotp, secret, Clean(typed), last, at / 30, s)
    ensures r == 0 && SixDigits(Clean(typed)) ==> forall s :: !Accepts(hotp, secret, Clean(typed), last, at / 30, s)
  {
    var code := Clean(typed);
    if !SixDigits(code) then 0
    else
      var step := at / 30;
      if step - 1 > last && hotp(secret, step - 1) == code then step - 1
      else if step > last && hotp(secret, step) == code then step
      else if step + 1 > last && hotp(secret, step + 1) == code then step + 1
      else 0
  }

  predicate NoBlank(s: string) {
    forall i :: 0 <= i < |s| ==> !Blank(s[i])
  }

  lemma {:induction false} DigitsStay(a: string, b: string)
    requires NoBlank(a)
    ensures WithoutSpaces(a + b) == a + WithoutSpaces(b)
  {
    if a == "" {
      assert a + b == b;
    } else {
      assert (a + b)[1..] == a[1..] + b;
      DigitsStay(a[1..], b);
      assert [a[0]] + (a[1..] + WithoutSpaces(b)) == a + WithoutSpaces(b);
    }
  }

  lemma {:induction false} CleanInside(s: string)
    requires s != "" && !Blank(s[0]) && !Blank(s[|s| - 1])
    ensures Clean(s) == WithoutSpaces(s)
  {
  }

  lemma {:induction false} DigitsAfterSpace(b: string)
    requires NoBlank(b)
    ensures WithoutSpaces(" " + b) == b
  {
    assert (" " + b)[1..] == b;
    DigitsStay(b, "");
    assert b + "" == b;
  }

  /** A code may be typed with a space in the middle, as authenticators show it. */
  lemma {:induction false} SpaceInTheMiddle(a: string, b: string, typed: string)
    requires a != "" && b != "" && NoBlank(a) && NoBlank(b) && typed == a + (" " + b)
    ensures Clean(typed) == a + b
  {
    assert typed[0] == a[0] && typed[|typed| - 1] == b[|b| - 1];
    CleanInside(typed);
    DigitsStay(a, " " + b);
    DigitsAfterSpace(b);
  }

  /** The code an authenticator shows now is accepted, unless it or a later one was used. */
  lemma CurrentCodeAccepted(hotp: Hotp, secret: Secret, code: string, last: nat, at: int)
    requires |code| == 6 && forall i :: 0 <= i < 6 ==> '0' <= code[i] <= '9'
    requires hotp(secret, at / 30) == code && last < at / 30
    ensures last < VerifyTotp(hotp, secret, code, last, at) <= at / 30
  {
    assert NoBlank(code);
    CleanInside(code);
    DigitsStay(code, "");
    assert code + "" == code;
  }

  // ----- Accounts -----

  datatype User = User(on: bool, secret: Option<Secret>, pending: Option<Secret>, last: nat)

  /** A code that was accepted: whose, of which secret, and for which time step. */
  datatype Taken = Taken(uid: int, secret: Secret, step: int)

  /** `issued` are the secrets ever generated, `accepted` the codes ever taken, in order. */
  datatype State = State(users: map<int, User>, issued: set<Secret>, accepted: seq<Taken>)

  const START := State(map[], {}, [])

  datatype Op =
    | Create(uid: int)
    | Delete(uid: int)
    | Login(uid: int, passwordOk: bool, otp: Option<string>, at: int)
    | Elevate(uid: int, code: string, at: int)
    | Begin(uid: int, otp: Option<string>, at: int, secret: Secret)
    | Confirm(uid: int, code: string, at: int)
    | Reset(uid: int)

  /** Checks a code against the active secret and, if it passes, moves `last`. */
  function Use(hotp: Hotp, s: State, uid: int, code: string, at: int): (bool, State)
    requires uid in s.users && s.users[uid].secret.Some?
  {
    var u := s.users[uid];
    var step := VerifyTotp(hotp, u.secret.value, code, u.last, at);
    if step == 0 then (false, s)
    else (true, s.(users := s.users[uid := u.(last := step)],
                   accepted := s.accepted + [Taken(uid, u.secret.value, step)]))
  }

  predicate Active(s: State, uid: int) {
    uid in s.users && s.users[uid].on && s.users[uid].secret.Some?
  }

  function DoBegin(hotp: Hotp, s: State, uid: int, code: Option<string>, at: int, secret: Secret): State {
    if secret in s.issued then s
    else if uid !in s.users then s.(issued := s.issued + {secret})
    else
      var (ok, s1) := if Active(s, uid) then Use(hotp, s, uid, if code.Some? then code.value else "", at)
                      else (true, s);
      if !ok then s1
      else s1.(users := s1.users[uid := s1.users[uid].(pending := Some(secret))], issued := s1.issued + {secret})
  }

  function DoConfirm(hotp: Hotp, s: State, uid: int, code: string, at: int): State {
    if uid !in s.users || s.users[uid].pending.None? then s
    else
      var k := s.users[uid].pending.value;
      var step := VerifyTotp(hotp, k, code, 0, at);
      if step == 0 then s
      else s.(users := s.users[uid := User(true, Some(k), None, step)], accepted := s.accepted + [Taken(uid, k, step)])
  }

  function Do(hotp: Hotp, s: State, op: Op): State {
    match op
    case Create(uid) => if uid in s.users then s else s.(users := s.users[uid := User(false, None, None, 0)])
    case Delete(uid) => s.(users := s.users - {uid})
    case Login(uid, passwordOk, code, at) =>
      if passwordOk && Active(s, uid) && code.Some? then Use(hotp, s, uid, code.value, at).1 else s
    case Elevate(uid, code, at) => if Active(s, uid) then Use(hotp, s, uid, code, at).1 else s
    case Begin(uid, code, at, secret) => DoBegin(hotp, s, uid, code, at, secret)
    case Confirm(uid, code, at) => DoConfirm(hotp, s, uid, code, at)
    case Reset(uid) => if uid in s.users then s.(users := s.users[uid := User(false, None, None, 0)]) else s
  }

  function Run(hotp: Hotp, ops: seq<Op>): State {
    if ops == [] then START else Do(hotp, Run(hotp, ops[..|ops| - 1]), ops[|ops| - 1])
  }

  // ----- The invariant -----

  predicate Holds(u: User, k: Secret) {
    u.secret == Some(k) || u.pending == Some(k)
  }

  ghost predicate UserOk(s: State, uid: int) {
    uid in s.users ==>
      var u := s.users[uid];
      && (u.on <==> u.secret.Some?)
      && (forall k :: Holds(u, k) ==> k in s.issued)
      && (u.secret.Some? ==> u.secret != u.pending)
      && (forall i :: 0 <= i < |s.accepted| && u.secret == Some(s.accepted[i].secret) ==> s.accepted[i].step <= u.last)
      && (forall i :: 0 <= i < |s.accepted| ==> u.pending != Some(s.accepted[i].secret))
  }

  ghost predicate Apart(s: State, a: int, b: int) {
    a in s.users && b in s.users && a != b ==> forall k :: !(Holds(s.users[a], k) && Holds(s.users[b], k))
  }

  ghost predicate NoRepeat(a: seq<Taken>) {
    forall i, j :: 0 <= i < j < |a| ==> (a[i].secret, a[i].step) != (a[j].secret, a[j].step)
  }

  ghost predicate Inv(s: State) {
    && (forall uid :: UserOk(s, uid)) && (forall a, b :: Apart(s, a, b))
    && NoRepeat(s.accepted)
    && (forall i :: 0 <= i < |s.accepted| ==> s.accepted[i].secret in s.issued)
  }

  /** Accepting a later step of a secret one user alone holds. */
  lemma AcceptKeeps(s: State, uid: int, u: User, k: Secret, step: nat)
    requires Inv(s) && uid in s.users && Holds(s.users[uid], k)
    requires u.on && u.secret == Some(k) && u.last == step
    requires s.users[uid].secret == Some(k) ==> step > s.users[uid].last && u.pending == s.users[uid].pending
    requires s.users[uid].secret != Some(k) ==> u.pending == None
    ensures Inv(s.(users := s.users[uid := u], accepted := s.accepted + [Taken(uid, k, step)]))
  {
    var s' := s.(users := s.users[uid := u], accepted := s.accepted + [Taken(uid, k, step)]);
    assert UserOk(s, uid);
    forall x ensures UserOk(s', x) {
      assert UserOk(s, x) && Apart(s, x, uid);
    }
    forall a, b ensures Apart(s', a, b) {
      assert Apart(s, a, b);
    }
  }

  lemma UseKeeps(hotp: Hotp, s: State, uid: int, code: string, at: int)
    requires Inv(s) && Active(s, uid)
    ensures Inv(Use(hotp, s, uid, code, at).1)
    ensures Use(hotp, s, uid, code, at).1.issued == s.issued && uid in Use(hotp, s, uid, code, at).1.users
  {
    var u := s.users[uid];
    var step := VerifyTotp(hotp, u.secret.value, code, u.last, at);
    if step != 0 {
      AcceptKeeps(s, uid, u.(last := step), u.secret.value, step);
    }
  }

  /** Replacing one user's row by one that holds fewer secrets, or also a new one as pending. */
  lemma RowKeeps(s: State, uid: int, u: User, issued: set<Secret>)
    requires Inv(s) && s.issued <= issued
    requires u.on <==> u.secret.Some?
    requires u.secret.Some? ==> uid in s.users && s.users[uid].secret == u.secret && u.last == s.users[uid].last
    requires u.pending.Some? ==> u.pending.value in issued && u.pending.value !in s.issued
    ensures Inv(s.(users := s.users[uid := u], issued := issued))
  {
    var s' := s.(users := s.users[uid := u], issued := issued);
    assert UserOk(s, uid);
    forall x ensures UserOk(s', x) {
      assert UserOk(s, x);
    }
    forall a, b ensures Apart(s', a, b) {
      assert Apart(s, a, b) && UserOk(s, a) && UserOk(s, b);
    }
  }

  lemma IssueKeeps(s: State, issued: set<Secret>)
    requires Inv(s) && s.issued <= issued
    ensures Inv(s.(issued := issued))
  {
    var s' := s.(issued := issued);
    forall x ensures UserOk(s', x) { assert UserOk(s, x); }
    forall a, b ensures Apart(s', a, b) { assert Apart(s, a, b); }
  }

  lemma BeginKeeps(hotp: Hotp, s: State, uid: int, code: Option<string>, at: int, secret: Secret)
    requires Inv(s)
    ensures Inv(DoBegin(hotp, s, uid, code, at, secret))
  {
    if uid !in s.users && secret !in s.issued {
      IssueKeeps(s, s.issued + {secret});
    }
    if uid in s.users && secret !in s.issued {
      var c := if code.Some? then code.value else "";
      if Active(s, uid) {
        UseKeeps(hotp, s, uid, c, at);
      }
      var s1 := if Active(s, uid) then Use(hotp, s, uid, c, at).1 else s;
      assert UserOk(s1, uid);
      RowKeeps(s1, uid, s1.users[uid].(pending := Some(secret)), s1.issued + {secret});
    }
  }

  lemma DeleteKeeps(s: State, uid: int)
    requires Inv(s)
    ensures Inv(s.(users := s.users - {uid}))
  {
    var s' := s.(users := s.users - {uid});
    forall x ensures UserOk(s', x) { assert UserOk(s, x); }
    forall a, b ensures Apart(s', a, b) { assert Apart(s, a, b); }
  }

  lemma DoKeeps(hotp: Hotp, s: State, op: Op)
    requires Inv(s)
    ensures Inv(Do(hotp, s, op))
  {
    match op
    case Create(uid) => RowKeeps(s, uid, User(false, None, None, 0), s.issued);
    case Delete(uid) => DeleteKeeps(s, uid);
    case Login(uid, passwordOk, code, at) =>
      if passwordOk && Active(s, uid) && code.Some? {
        UseKeeps(hotp, s, uid, code.value, at);
      }
    case Elevate(uid, code, at) =>
      if Active(s, uid) {
        UseKeeps(hotp, s, uid, code, at);
      }
    case Begin(uid, code, at, secret) => BeginKeeps(hotp, s, uid, code, at, secret);
    case Confirm(uid, code, at) =>
      if uid in s.users && s.users[uid].pending.Some? {
        var k := s.users[uid].pending.value;
        var step := VerifyTotp(hotp, k, code, 0, at);
        assert UserOk(s, uid);
        if step != 0 {
          AcceptKeeps(s, uid, User(true, Some(k), None, step), k, step);
        }
      }
    case Reset(uid) => RowKeeps(s, uid, User(false, None, None, 0), s.issued);
  }

  lemma {:induction false} RunKeeps(hotp: Hotp, ops: seq<Op>)
    ensures Inv(Run(hotp, ops))
  {
    if ops == [] {
    } else {
      RunKeeps(hotp, ops[..|ops| - 1]);
      DoKeeps(hotp, Run(hotp, ops[..|ops| - 1]), ops[|ops| - 1]);
    }
  }

  // ----- Main result -----

  /** Over any run, with any clock, no time step of a secret is accepted twice. */
  lemma NoStepTwice(hotp: Hotp, ops: seq<Op>, i: nat, j: nat)
    requires i < j < |Run(hotp, ops).accepted|
    ensures var a := Run(hotp, ops).accepted; a[i].secret != a[j].secret || a[i].step != a[j].step
  {
    RunKeeps(hotp, ops);
  }

  lemma DoTakes(hotp: Hotp, s: State, op: Op)
    ensures var s' := Do(hotp, s, op);
            || s'.accepted == s.accepted
            || exists t :: && s'.accepted == s.accepted + [t] && t.uid == op.uid
                           && t.uid in s.users && Holds(s.users[t.uid], t.secret)
  {
  }

  /** Every code ever accepted was of a secret that its user had at the time, active or about to be, and was
      spent by an operation of that user. */
  lemma {:induction false} TakenFromOwner(hotp: Hotp, ops: seq<Op>, i: nat) returns (k: nat)
    requires i < |Run(hotp, ops).accepted|
    ensures k < |ops|
    ensures var s, t := Run(hotp, ops[..k]), Run(hotp, ops).accepted[i];
            |s.accepted| == i && ops[k].uid == t.uid && t.uid in s.users && Holds(s.users[t.uid], t.secret)
  {
    k := 0;
    if ops == [] {
    } else {
      var init := ops[..|ops| - 1];
      DoTakes(hotp, Run(hotp, init), ops[|ops| - 1]);
      if i < |Run(hotp, init).accepted| {
        k := TakenFromOwner(hotp, init, i);
        assert init[..k] == ops[..k];
      } else {
        k := |ops| - 1;
      }
    }
  }

  lemma LaterThanAccepted(hotp: Hotp, s: State, uid: int, code: string, at: int, i: nat)
    requires Inv(s) && Active(s, uid) && i < |s.accepted| && s.accepted[i].secret == s.users[uid].secret.value
    ensures var r := VerifyTotp(hotp, s.users[uid].secret.value, code, s.users[uid].last, at);
            r == 0 || r > s.accepted[i].step
  {
    assert UserOk(s, uid);
  }

  /** While a secret stays active, a code is taken only for a step later than every step taken before,
      whatever the clock says: a code once used is of no further use. */
  lemma ReplayRefused(hotp: Hotp, ops: seq<Op>, s: State, uid: int, code: string, at: int, i: nat)
    requires s == Run(hotp, ops) && Active(s, uid)
    requires i < |s.accepted| && s.accepted[i].secret == s.users[uid].secret.value
    ensures var r := VerifyTotp(hotp, s.users[uid].secret.value, code, s.users[uid].last, at);
            r == 0 || r > s.accepted[i].step
  {
    RunKeeps(hotp, ops);
    LaterThanAccepted(hotp, s, uid, code, at, i);
  }

  // ----- The columns in place -----

  /** Which factor each user has. */
  ghost predicate SameFactors(was: map<int, User>, now: map<int, User>) {
    was.Keys == now.Keys && forall u :: u in now ==> now[u].on == was[u].on && now[u].secret == was[u].secret
  }

  /** The two-factor columns of the `users` table.  The ghost fields record the run; `Valid` says that the columns
      are what it gives, so that the results above hold of every object in use. */
  class Factors {
    const hotp: Hotp
    var users: map<int, User>

    ghost var issued: set<Secret>
    ghost var accepted: seq<Taken>
    ghost var ops: seq<Op>

    ghost function View(): State
      reads this
    {
      State(users, issued, accepted)
    }

    ghost predicate Valid()
      reads this
    {
      View() == Run(hotp, ops)
    }

    constructor (hotp: Hotp)
      ensures Valid() && this.hotp == hotp && users == map[] && accepted == []
    {
      this.hotp := hotp;
      users, issued, accepted, ops := map[], {}, [], [];
    }

    /** The run grows by one operation, which the columns already reflect. */
    ghost method Did(op: Op)
      requires View() == Do(hotp, Run(hotp, ops), op)
      modifies this`ops
      ensures Valid() && ops == old(ops) + [op]
    {
      assert (ops + [op])[..|ops|] == ops;
      ops := ops + [op];
    }

    lemma OnMeansSecret(uid: int)
      requires Valid() && uid in users
      ensures users[uid].on <==> users[uid].secret.Some?
    {
      RunKeeps(hotp, ops);
      assert UserOk(View(), uid);
    }

    method Create(uid: int)
      requires Valid() && uid !in users
      modifies this
      ensures Valid() && ops == old(ops) + [Op.Create(uid)]
      ensures users == old(users)[uid := User(false, None, None, 0)] && accepted == old(accepted)
    {
      users := users[uid := User(false, None, None, 0)];
      Did(Op.Create(uid));
    }

    method Delete(uid: int)
      requires Valid()
      modifies this
      ensures Valid() && ops == old(ops) + [Op.Delete(uid)]
      ensures users == old(users) - {uid} && accepted == old(accepted)
    {
      users := users - {uid};
      Did(Op.Delete(uid));
    }

    /** Tries a code on the active secret and moves the user's last step. */
    method Check(uid: int, code: string, at: int) returns (ok: bool)
      requires uid in users && users[uid].secret.Some?
      modifies this`users, this`accepted
      ensures (ok, View()) == Use(hotp, old(View()), uid, code, at)
      ensures SameFactors(old(users), users)
      ensures accepted == old(accepted) + if ok then [Taken(uid, users[uid].secret.value, users[uid].last)] else []
    {
      var u := users[uid];
      var step := VerifyTotp(hotp, u.secret.value, code, u.last, at);
      ok := step != 0;
      if ok {
        users := users[uid := u.(last := step)];
        accepted := accepted + [Taken(uid, u.secret.value, step)];
      }
    }

    /** The code of a log-in, asked of a user whose two-factor is on. */
    method Login(uid: int, otp: string, at: int) returns (ok: bool)
      requires Valid() && Active(View(), uid)
      modifies this
      ensures Valid() && ops == old(ops) + [Op.Login(uid, true, Some(otp), at)]
      ensures ok <==> Use(hotp, old(View()), uid, otp, at).0
      ensures ok <==> VerifyTotp(hotp, old(users)[uid].secret.value, otp, old(users)[uid].last, at) != 0
      ensures ok ==> users[uid].last == VerifyTotp(hotp, old(users)[uid].secret.value, otp, old(users)[uid].last, at)
      ensures SameFactors(old(users), users) && (!ok ==> users == old(users))
      ensures accepted == old(accepted) + if ok then [Taken(uid, users[uid].secret.value, users[uid].last)] else []
    {
      ok := Check(uid, otp, at);
      Did(Op.Login(uid, true, Some(otp), at));
    }

    method Elevate(uid: int, code: string, at: int) returns (ok: bool)
      requires Valid()
      modifies this
      ensures Valid() && ops == old(ops) + [Op.Elevate(uid, code, at)]
      ensures ok <==> Active(old(View()), uid) && Use(hotp, old(View()), uid, code, at).0
      ensures ok <==> && uid in old(users) && old(users)[uid].on && old(users)[uid].secret.Some?
                      && VerifyTotp(hotp, old(users)[uid].secret.value, code, old(users)[uid].last, at) != 0
      ensures SameFactors(old(users), users) && (!ok ==> users == old(users)) && (ok ==> uid in users)
      ensures ok ==> users[uid].secret.Some?
      ensures accepted == old(accepted) + if ok then [Taken(uid, users[uid].secret.value, users[uid].last)] else []
    {
      ok := false;
      if uid in users && users[uid].on {
        OnMeansSecret(uid);
        ok := Check(uid, code, at);
      }
      Did(Op.Elevate(uid, code, at));
    }

    /** `secret` is the new random secret.  For a user who is gone nothing is stored, and the caller is not told. */
    method Begin(uid: int, code: Option<string>, at: int, secret: Secret) returns (ok: bool)
      requires Valid() && secret !in issued
      modifies this
      ensures Valid() && ops == old(ops) + [Op.Begin(uid, code, at, secret)]
      ensures ok <==> (Active(old(View()), uid) ==>
                       Use(hotp, old(View()), uid, if code.Some? then code.value else "", at).0)
      ensures uid in old(users) && old(users)[uid].on && old(users)[uid].secret.Some? ==>
                var typed := if code.Some? then code.value else "";
                ok <==> VerifyTotp(hotp, old(users)[uid].secret.value, typed, old(users)[uid].last, at) != 0
      ensures uid in old(users) && !old(users)[uid].on ==> ok
      ensures uid !in old(users) || !ok ==> users == old(users)
      ensures uid in old(users) && ok ==> uid in users && users[uid].pending == Some(secret)
      ensures SameFactors(old(users), users) && old(accepted) <= accepted
      ensures |accepted| == |old(accepted)| + if Active(old(View()), uid) && ok then 1 else 0
    {
      ok := true;
      if uid in users && users[uid].on {
        OnMeansSecret(uid);
        ok := Check(uid, if code.Some? then code.value else "", at);
      }
      if ok {
        if uid in users {
          users := users[uid := users[uid].(pending := Some(secret))];
        }
        issued := issued + {secret};
      }
      Did(Op.Begin(uid, code, at, secret));
    }

    method Confirm(uid: int, code: string, at: int) returns (ok: bool)
      requires Valid()
      modifies this
      ensures Valid() && ops == old(ops) + [Op.Confirm(uid, code, at)]
      ensures ok <==> uid in old(users) && old(users)[uid].pending.Some?
                      && VerifyTotp(hotp, old(users)[uid].pending.value, code, 0, at) != 0
      ensures ok ==>
                && uid in users
                && users == old(users)[uid := User(true, old(users)[uid].pending, None, users[uid].last)]
                && accepted == old(accepted) + [Taken(uid, old(users)[uid].pending.value, users[uid].last)]
      ensures !ok ==> users == old(users) && accepted == old(accepted)
    {
      ok := false;
      if uid in users && users[uid].pending.Some? {
        var k := users[uid].pending.value;
        var step := VerifyTotp(hotp, k, code, 0, at);
        if step != 0 {
          users := users[uid := User(true, Some(k), None, step)];
          accepted := accepted + [Taken(uid, k, step)];
          ok := true;
        }
      }
      Did(Op.Confirm(uid, code, at));
    }

    method Reset(uid: int)
      requires Valid()
      modifies this
      ensures Valid() && ops == old(ops) + [Op.Reset(uid)] && accepted == old(accepted)
      ensures users == if uid in old(users) then old(users)[uid := User(false, None, None, 0)] else old(users)
    {
      if uid in users {
        users := users[uid := User(false, None, None, 0)];
      }
      Did(Op.Reset(uid));
    }
  }
}
