/** Accounts and sessions as the hub changes its tables in place (hub/icsd_hub/auth.py).

    The two-factor columns are a `Factors` object and the failure rows a `Failures` object, each tied to its
    own run; here they are joined with the accounts and the sessions.  A ghost sequence says of every code
    ever accepted what it was spent on; it only grows.
 */
module Auth {
  import opened Common
  import opened Totp
  import LoginLimit

  const ELEVATE_SECONDS := 900
  const MIN_PASSWORD := 10

  datatype Account = Account(name: string, hash: string, admin: bool, lastLogin: Option<int>)

  datatype Session = Session(uid: int, created: int, seen: int, elevatedUntil: int)

  datatype Outcome = TooMany | BadPassword | NeedOtp | BadOtp | LoggedIn(uid: int)

  /** What an accepted code was spent on: opening a session, confirming a new secret in one, elevating one at a
      time, or starting a new secret. */
  datatype Purpose = Opened(h: string) | Confirmed(h: string) | Raised(h: string, at: int) | Renewed(uid: int)

  /** The sessions left when those of `uid` end, except `keep`. */
  function Without(sessions: map<string, Session>, uid: int, keep: Option<string>): map<string, Session> {
    map h | h in sessions && (sessions[h].uid != uid || keep == Some(h)) :: sessions[h]
  }

  lemma WithoutMeans(sessions: map<string, Session>, uid: int, keep: Option<string>, h: string)
    ensures h in Without(sessions, uid, keep) <==> h in sessions && (sessions[h].uid == uid ==> keep == Some(h))
    ensures h in Without(sessions, uid, keep) ==> Without(sessions, uid, keep)[h] == sessions[h]
  {
  }

  predicate Expired(x: Session, now: int, idle: int, max: int) {
    x.seen < now - idle || x.created < now - max
  }

  function Admins(accounts: map<int, Account>): set<int> {
    set u | u in accounts && accounts[u].admin
  }

  // ----- What the tables keep -----

  /** The `i`-th accepted code is one of user `uid`. */
  ghost predicate CodeOf(accepted: seq<Taken>, uses: seq<Purpose>, i: nat, uid: int) {
    i < |accepted| && i < |uses| && accepted[i].uid == uid
  }

  /** The code recorded for session `h` is its own: spent on opening it or on confirming a secret in it. */
  ghost predicate Showed(accepted: seq<Taken>, uses: seq<Purpose>, shown: map<string, nat>, h: string, uid: int,
                         secret: Option<Secret>)
  {
    && h in shown && CodeOf(accepted, uses, shown[h], uid) && Some(accepted[shown[h]].secret) == secret
    && (uses[shown[h]] == Opened(h) || uses[shown[h]] == Confirmed(h))
  }

  /** A session belongs to a user; if that user's two-factor is on, this session showed a code of the secret
      active now. */
  ghost predicate SessionOk(users: map<int, User>, sessions: map<string, Session>, shown: map<string, nat>,
                            accepted: seq<Taken>, uses: seq<Purpose>, h: string)
  {
    h in sessions ==>
      var uid := sessions[h].uid;
      uid in users && (users[uid].on ==> Showed(accepted, uses, shown, h, uid, users[uid].secret))
  }

  ghost predicate SessionsOk(users: map<int, User>, sessions: map<string, Session>, shown: map<string, nat>,
                             accepted: seq<Taken>, uses: seq<Purpose>)
  {
    forall h :: SessionOk(users, sessions, shown, accepted, uses, h)
  }

  ghost predicate NameOk(accounts: map<int, Account>, names: map<string, int>, n: string) {
    n in names ==> names[n] in accounts && accounts[names[n]].name == n
  }

  ghost predicate AccountOk(accounts: map<int, Account>, names: map<string, int>, u: int) {
    u in accounts ==> accounts[u].name in names && names[accounts[u].name] == u
  }

  /** Names are unique and belong to accounts. */
  ghost predicate NamesOk(accounts: map<int, Account>, names: map<string, int>) {
    (forall n :: NameOk(accounts, names, n)) && (forall u :: AccountOk(accounts, names, u))
  }

  /** An elevated session spent a code of its user on that, when its fifteen minutes began. */
  ghost predicate ElevationOk(sessions: map<string, Session>, raised: map<string, nat>, accepted: seq<Taken>,
                              uses: seq<Purpose>, h: string)
  {
    h in sessions && sessions[h].elevatedUntil != 0 ==>
      && h in raised && CodeOf(accepted, uses, raised[h], sessions[h].uid)
      && uses[raised[h]] == Raised(h, sessions[h].elevatedUntil - ELEVATE_SECONDS)
  }

  ghost predicate ElevationsOk(sessions: map<string, Session>, raised: map<string, nat>, accepted: seq<Taken>,
                               uses: seq<Purpose>)
  {
    forall h :: ElevationOk(sessions, raised, accepted, uses, h)
  }

  /** The factors stay, codes may be accepted, and sessions may end. */
  lemma FactorsKept(users: map<int, User>, users': map<int, User>, sessions: map<string, Session>,
                    sessions': map<string, Session>, shown: map<string, nat>, accepted: seq<Taken>,
                    accepted': seq<Taken>, uses: seq<Purpose>, uses': seq<Purpose>)
    requires SessionsOk(users, sessions, shown, accepted, uses) && SameFactors(users, users')
    requires accepted <= accepted' && uses <= uses'
    requires forall h :: h in sessions' ==> h in sessions && sessions'[h].uid == sessions[h].uid
    ensures SessionsOk(users', sessions', shown, accepted', uses')
  {
    forall h ensures SessionOk(users', sessions', shown, accepted', uses', h) {
      assert SessionOk(users, sessions, shown, accepted, uses, h);
    }
  }

  /** One user's row changes in any way, or goes, and with it the user's sessions. */
  lemma UserEnds(users: map<int, User>, users': map<int, User>, sessions: map<string, Session>,
                 shown: map<string, nat>, accepted: seq<Taken>, uses: seq<Purpose>, uid: int)
    requires SessionsOk(users, sessions, shown, accepted, uses)
    requires forall u :: u in users && u != uid ==> u in users' && users'[u] == users[u]
    ensures SessionsOk(users', Without(sessions, uid, None), shown, accepted, uses)
  {
    var sessions' := Without(sessions, uid, None);
    forall h ensures SessionOk(users', sessions', shown, accepted, uses, h) {
      assert SessionOk(users, sessions, shown, accepted, uses, h);
    }
  }

  /** Confirming a new secret in session `h`. */
  lemma SecretConfirmed(users: map<int, User>, users': map<int, User>, sessions: map<string, Session>,
                        shown: map<string, nat>, accepted: seq<Taken>, uses: seq<Purpose>, h: string, t: Taken)
    requires SessionsOk(users, sessions, shown, accepted, uses) && |uses| == |accepted|
    requires t.uid in users' && users' == users[t.uid := users'[t.uid]] && users'[t.uid].secret == Some(t.secret)
    requires h in sessions ==> sessions[h].uid == t.uid
    ensures SessionsOk(users', Without(sessions, t.uid, Some(h)), shown[h := |accepted|], accepted + [t],
                       uses + [Confirmed(h)])
  {
    var sessions', shown' := Without(sessions, t.uid, Some(h)), shown[h := |accepted|];
    var accepted', uses' := accepted + [t], uses + [Confirmed(h)];
    forall x ensures SessionOk(users', sessions', shown', accepted', uses', x) {
      assert SessionOk(users, sessions, shown, accepted, uses, x);
    }
  }

  /** A session is opened: with two-factor on, by the code accepted last. */
  lemma SessionOpened(users: map<int, User>, sessions: map<string, Session>, shown: map<string, nat>,
                      shown': map<string, nat>, accepted: seq<Taken>, uses: seq<Purpose>, h: string, x: Session)
    requires SessionsOk(users, sessions, shown, accepted, uses) && x.uid in users
    requires if users[x.uid].on
             then h in shown' && shown' == shown[h := shown'[h]]
                  && Showed(accepted, uses, shown', h, x.uid, users[x.uid].secret)
             else shown' == shown
    ensures SessionsOk(users, sessions[h := x], shown', accepted, uses)
  {
    var sessions' := sessions[h := x];
    forall g ensures SessionOk(users, sessions', shown', accepted, uses, g) {
      assert SessionOk(users, sessions, shown, accepted, uses, g);
    }
  }

  /** Codes are accepted, and sessions end or change without being elevated. */
  lemma ElevationsKept(sessions: map<string, Session>, sessions': map<string, Session>, raised: map<string, nat>,
                       accepted: seq<Taken>, accepted': seq<Taken>, uses: seq<Purpose>, uses': seq<Purpose>)
    requires ElevationsOk(sessions, raised, accepted, uses) && accepted <= accepted' && uses <= uses'
    requires forall h :: h in sessions' && sessions'[h].elevatedUntil != 0 ==>
               && h in sessions && sessions'[h].uid == sessions[h].uid
               && sessions'[h].elevatedUntil == sessions[h].elevatedUntil
    ensures ElevationsOk(sessions', raised, accepted', uses')
  {
    forall h ensures ElevationOk(sessions', raised, accepted', uses', h) {
      assert ElevationOk(sessions, raised, accepted, uses, h);
    }
  }

  lemma NameAdded(accounts: map<int, Account>, names: map<string, int>, uid: int, a: Account)
    requires NamesOk(accounts, names) && uid !in accounts && a.name !in names
    ensures NamesOk(accounts[uid := a], names[a.name := uid])
  {
    var accounts', names' := accounts[uid := a], names[a.name := uid];
    forall n ensures NameOk(accounts', names', n) { assert NameOk(accounts, names, n); }
    forall u ensures AccountOk(accounts', names', u) { assert AccountOk(accounts, names, u); }
  }

  lemma NameRemoved(accounts: map<int, Account>, names: map<string, int>, uid: int)
    requires NamesOk(accounts, names) && uid in accounts
    ensures NamesOk(accounts - {uid}, names - {accounts[uid].name})
  {
    assert AccountOk(accounts, names, uid);
    var accounts', names' := accounts - {uid}, names - {accounts[uid].name};
    forall n ensures NameOk(accounts', names', n) { assert NameOk(accounts, names, n); }
    forall u ensures AccountOk(accounts', names', u) { assert AccountOk(accounts, names, u); }
  }

  lemma RowChanged(accounts: map<int, Account>, names: map<string, int>, uid: int, a: Account)
    requires NamesOk(accounts, names) && uid in accounts && a.name == accounts[uid].name
    ensures NamesOk(accounts[uid := a], names)
  {
    var accounts' := accounts[uid := a];
    forall n ensures NameOk(accounts', names, n) { assert NameOk(accounts, names, n); }
    forall u ensures AccountOk(accounts', names, u) { assert AccountOk(accounts, names, u); }
  }

  lemma AdminLeft(accounts: map<int, Account>, uid: int)
    requires uid in accounts && !(accounts[uid].admin && |Admins(accounts)| <= 1) && Admins(accounts) != {}
    ensures Admins(accounts - {uid}) != {}
  {
    var rest := Admins(accounts) - {uid};
    assert rest == Admins(accounts - {uid});
    assert accounts[uid].admin ==> Admins(accounts) == rest + {uid};
    assert !accounts[uid].admin ==> rest == Admins(accounts);
  }

  // ----- The tables -----

  class Accounts {
    const factors: Factors
    const failures: LoginLimit.Failures
    /** bcrypt: whether a password fits a hash; `strip().lower()`; which characters a name may have. */
    const fits: (string, string) -> bool
    const fold: string -> string
    const allowed: char -> bool

    var accounts: map<int, Account>
    var names: map<string, int>
    var sessions: map<string, Session>

    /** What each accepted code was spent on, the code of each session, and of its last elevation. */
    ghost var uses: seq<Purpose>
    ghost var shown: map<string, nat>
    ghost var raised: map<string, nat>

    ghost predicate Valid()
      reads this, factors, failures
    {
      && factors.Valid() && failures.Valid() && |uses| == |factors.accepted|
      && accounts.Keys == factors.users.Keys && NamesOk(accounts, names)
      && SessionsOk(factors.users, sessions, shown, factors.accepted, uses)
      && ElevationsOk(sessions, raised, factors.accepted, uses)
    }

    constructor (hotp: Hotp, fits: (string, string) -> bool, fold: string -> string, allowed: char -> bool)
      ensures Valid() && fresh(factors) && fresh(failures)
      ensures factors.hotp == hotp && this.fits == fits && this.fold == fold && this.allowed == allowed
      ensures accounts == map[] && sessions == map[] && failures.rows == [] && uses == []
    {
      factors := new Factors(hotp);
      failures := new LoginLimit.Failures();
      this.fits, this.fold, this.allowed := fits, fold, allowed;
      accounts, names, sessions := map[], map[], map[];
      uses, shown, raised := [], map[], map[];
    }

    // ----- Accounts -----

    predicate GoodName(u: string) {
      3 <= |u| <= 32 && forall i :: 0 <= i < |u| ==> allowed(u[i])
    }

    /** `uid` is the new row and `hash` that of the password. */
    method Create(uid: int, username: string, password: string, hash: string, role: string) returns (ok: bool)
      requires Valid() && uid !in accounts
      modifies this`accounts, this`names, factors
      ensures Valid()
      ensures var u := fold(username);
              ok <==> && 3 <= |u| <= 32 && (forall i :: 0 <= i < |u| ==> allowed(u[i])) && |password| >= 10
                      && (role == "admin" || role == "viewer") && u !in old(names)
      ensures if ok then accounts == old(accounts)[uid := Account(fold(username), hash, role == "admin", None)]
              else accounts == old(accounts)
      ensures names == if ok then old(names)[fold(username) := uid] else old(names)
      ensures factors.users == if ok then old(factors.users)[uid := User(false, None, None, 0)] else old(factors.users)
    {
      var u := fold(username);
      ok := GoodName(u) && |password| >= MIN_PASSWORD && (role == "admin" || role == "viewer") && u !in names;
      if ok {
        var a := Account(u, hash, role == "admin", None);
        NameAdded(accounts, names, uid, a);
        factors.Create(uid);
        accounts, names := accounts[uid := a], names[u := uid];
        forall h ensures SessionOk(factors.users, sessions, shown, factors.accepted, uses, h) {
          assert old(SessionOk(factors.users, sessions, shown, factors.accepted, uses, h));
        }
      }
    }

    /** Refused for a missing user and for the last administrator; sessions go with the user. */
    method Delete(uid: int) returns (ok: bool)
      requires Valid()
      modifies this`accounts, this`names, this`sessions, factors
      ensures Valid()
      ensures ok <==> uid in old(accounts) && !(old(accounts)[uid].admin && |Admins(old(accounts))| <= 1)
      ensures if ok then accounts == old(accounts) - {uid} && sessions == Without(old(sessions), uid, None)
              else accounts == old(accounts) && sessions == old(sessions) && factors.users == old(factors.users)
      ensures Admins(old(accounts)) != {} ==> Admins(accounts) != {}
    {
      ok := uid in accounts && !(accounts[uid].admin && |Admins(accounts)| <= 1);
      if ok {
        if Admins(accounts) != {} {
          AdminLeft(accounts, uid);
        }
        NameRemoved(accounts, names, uid);
        UserEnds(factors.users, factors.users - {uid}, sessions, shown, factors.accepted, uses, uid);
        factors.Delete(uid);
        names := names - {accounts[uid].name};
        accounts := accounts - {uid};
        EndSessions(uid, None);
      }
    }

    /** `DELETE FROM sessions` for one user, perhaps but one. */
    method EndSessions(uid: int, keep: Option<string>)
      requires ElevationsOk(sessions, raised, factors.accepted, uses)
      modifies this`sessions
      ensures ElevationsOk(sessions, raised, factors.accepted, uses)
      ensures sessions == Without(old(sessions), uid, keep)
    {
      ElevationsKept(sessions, Without(sessions, uid, keep), raised, factors.accepted, factors.accepted, uses, uses);
      sessions := Without(sessions, uid, keep);
    }

    /** A new password ends all sessions of the user. */
    method SetPassword(uid: int, password: string, hash: string) returns (ok: bool)
      requires Valid()
      modifies this`accounts, this`sessions
      ensures Valid() && (ok <==> |password| >= 10)
      ensures sessions == if ok then Without(old(sessions), uid, None) else old(sessions)
      ensures accounts == if ok && uid in old(accounts)
                          then old(accounts)[uid := old(accounts)[uid].(hash := hash)] else old(accounts)
    {
      ok := |password| >= MIN_PASSWORD;
      if ok {
        if uid in accounts {
          RowChanged(accounts, names, uid, accounts[uid].(hash := hash));
          accounts := accounts[uid := accounts[uid].(hash := hash)];
        }
        UserEnds(factors.users, factors.users, sessions, shown, factors.accepted, uses, uid);
        EndSessions(uid, None);
      }
    }

    // ----- Sessions -----

    /** The user name a log-in is about: at most 64 characters of it. */
    function Name(username: string): (r: string)
      ensures r <= fold(username) && |r| <= 64 && (|fold(username)| <= 64 ==> r == fold(username))
    {
      fold(username)[..Min(64, |fold(username)|)]
    }

    /** `token` names the new session, `now` and `later` are the two clock readings of the limit, `at` that of
        the code and `since` that of the session. */
    method Login(username: string, password: string, otp: string, ip: string, now: int, later: int, at: int,
                 token: string, since: int)
      returns (r: Outcome)
      requires Valid() && token !in sessions
      modifies this, factors, failures
      ensures Valid() && names == old(names) && old(uses) <= uses
      ensures r.TooMany? <==> LoginLimit.TooMany(old(failures.rows), ip, Name(username), now)
      ensures failures.ops == old(failures.ops)
                              + [LoginLimit.Login(ip, Name(username), now, later, r.BadPassword? || r.BadOtp?)]
      // whoever gets in has an account of that name and its password
      ensures r.LoggedIn? ==>
                && r.uid in old(accounts) && old(accounts)[r.uid].name == Name(username)
                && fits(password, old(accounts)[r.uid].hash)
      // within the limit, a name without an account and a password that does not fit are a recorded failure
      ensures !r.TooMany? ==>
                (r.BadPassword? <==>
                   !exists u :: && u in old(accounts) && old(accounts)[u].name == Name(username)
                                && fits(password, old(accounts)[u].hash))
      ensures r.BadPassword? || r.BadOtp? ==>
                failures.rows == old(failures.rows) + [LoginLimit.Fail(ip, Name(username), later, true)]
      ensures !r.BadPassword? && !r.BadOtp? ==> failures.rows == old(failures.rows)
      // a password that fits gets in without two-factor, and with it exactly with a code that is accepted
      ensures forall u :: && u in old(accounts) && old(accounts)[u].name == Name(username)
                          && fits(password, old(accounts)[u].hash) && !r.TooMany? ==>
                var f := old(factors.users)[u];
                r == if !f.on then LoggedIn(u)
                     else if otp == "" then NeedOtp
                     else if f.secret.Some? && VerifyTotp(factors.hotp, f.secret.value, otp, f.last, at) != 0
                     then LoggedIn(u) else BadOtp
      ensures uses == old(uses) + if r.LoggedIn? && old(Active(factors.View(), r.uid)) then [Opened(token)] else []
      // a session is opened exactly on success
      ensures sessions == if r.LoggedIn? then old(sessions)[token := Session(r.uid, since, since, 0)] else old(sessions)
      ensures r.LoggedIn? ==>
                && r.uid in old(accounts)
                && accounts == old(accounts)[r.uid := old(accounts)[r.uid].(lastLogin := Some(since))]
      ensures !r.LoggedIn? ==> accounts == old(accounts) && factors.users == old(factors.users)
    {
      var name := Name(username);
      VerdictMeans(name, password, otp, at);
      if LoginLimit.TooMany(failures.rows, ip, name, now) {
        r := TooMany;
      } else {
        r := Admit(name, password, otp, at, token, since);
      }
      failures.Attempted(ip, name, now, later, r.BadPassword? || r.BadOtp?);
    }

    /** An attempt within the limit. */
    method Admit(name: string, password: string, otp: string, at: int, token: string, since: int) returns (r: Outcome)
      requires Valid() && token !in sessions
      modifies this`accounts, this`sessions, this`shown, this`uses, factors
      ensures Valid() && r == old(Verdict(name, password, otp, at))
      ensures uses == old(uses) + if r.LoggedIn? && old(Active(factors.View(), r.uid)) then [Opened(token)] else []
      ensures sessions == if r.LoggedIn? then old(sessions)[token := Session(r.uid, since, since, 0)] else old(sessions)
      ensures r.LoggedIn? ==>
                && r.uid in old(accounts)
                && accounts == old(accounts)[r.uid := old(accounts)[r.uid].(lastLogin := Some(since))]
      ensures !r.LoggedIn? ==> accounts == old(accounts) && factors.users == old(factors.users)
    {
      r := Identify(name, password, otp, at, token);
      if r.LoggedIn? {
        OpenSession(r.uid, token, since);
      }
    }

    /** What an attempt within the limit is told. */
    ghost function Verdict(name: string, password: string, otp: string, at: int): Outcome
      requires Valid()
      reads this, factors, failures
    {
      assert NameOk(accounts, names, name);
      if name !in names || !fits(password, accounts[names[name]].hash) then BadPassword
      else
        var uid := names[name];
        if !Active(factors.View(), uid) then LoggedIn(uid)
        else if otp == "" then NeedOtp
        else if Use(factors.hotp, factors.View(), uid, otp, at).0 then LoggedIn(uid)
        else BadOtp
    }

    /** The verdict in the terms of the tables. */
    lemma VerdictMeans(name: string, password: string, otp: string, at: int)
      requires Valid()
      ensures var r := Verdict(name, password, otp, at);
              && (r.BadPassword? || r.LoggedIn? || r.NeedOtp? || r.BadOtp?)
              && (r.LoggedIn? ==>
                    r.uid in accounts && accounts[r.uid].name == name && fits(password, accounts[r.uid].hash))
              && (r.BadPassword? <==>
                    !exists u :: u in accounts && accounts[u].name == name && fits(password, accounts[u].hash))
      ensures forall u :: u in accounts && accounts[u].name == name && fits(password, accounts[u].hash) ==>
                var f := factors.users[u];
                Verdict(name, password, otp, at) ==
                if !f.on then LoggedIn(u)
                else if otp == "" then NeedOtp
                else if f.secret.Some? && VerifyTotp(factors.hotp, f.secret.value, otp, f.last, at) != 0
                then LoggedIn(u) else BadOtp
    {
      assert NameOk(accounts, names, name);
      forall u | u in accounts && accounts[u].name == name
        ensures name in names && names[name] == u && (factors.users[u].on <==> factors.users[u].secret.Some?)
      {
        assert AccountOk(accounts, names, u);
        factors.OnMeansSecret(u);
      }
    }

    /** Password and code; an accepted code is the one spent on opening `token`. */
    method Identify(name: string, password: string, otp: string, at: int, ghost token: string) returns (r: Outcome)
      requires Valid()
      modifies factors, this`uses
      ensures Valid() && r == old(Verdict(name, password, otp, at)) && SameFactors(old(factors.users), factors.users)
      ensures r.LoggedIn? ==> r.uid in accounts
      ensures r.LoggedIn? ==> (old(Active(factors.View(), r.uid)) <==> factors.users[r.uid].on)
      ensures uses == old(uses) + if r.LoggedIn? && factors.users[r.uid].on then [Opened(token)] else []
      ensures r.LoggedIn? && factors.users[r.uid].on ==> JustShown(r.uid)
      ensures !r.LoggedIn? ==> factors.users == old(factors.users)
    {
      assert NameOk(accounts, names, name);
      if name !in names || !fits(password, accounts[names[name]].hash) {
        return BadPassword;
      }
      var uid := names[name];
      factors.OnMeansSecret(uid);
      if !factors.users[uid].on {
        return LoggedIn(uid);
      }
      if otp == "" {
        return NeedOtp;
      }
      var ok := factors.Login(uid, otp, at);
      if !ok {
        assert factors.accepted == old(factors.accepted);
        return BadOtp;
      }
      Spend(old(factors.users), old(factors.accepted), Opened(token));
      r := LoggedIn(uid);
    }

    /** The code accepted last is one of the active secret of `uid`. */
    ghost predicate JustShown(uid: int)
      reads this, factors
    {
      && factors.accepted != [] && |uses| == |factors.accepted| && uid in factors.users
      && factors.accepted[|uses| - 1].uid == uid
      && Some(factors.accepted[|uses| - 1].secret) == factors.users[uid].secret
    }

    /** One more code was accepted and is written down as spent on `p`; the tables stay. */
    ghost method Spend(users: map<int, User>, accepted: seq<Taken>, p: Purpose)
      requires factors.Valid() && failures.Valid() && accounts.Keys == factors.users.Keys && NamesOk(accounts, names)
      requires SessionsOk(users, sessions, shown, accepted, uses) && ElevationsOk(sessions, raised, accepted, uses)
      requires SameFactors(users, factors.users) && |uses| == |accepted|
      requires accepted <= factors.accepted && |factors.accepted| == |accepted| + 1
      modifies this`uses
      ensures Valid() && uses == old(uses) + [p]
    {
      FactorsKept(users, factors.users, sessions, sessions, shown, accepted, factors.accepted, uses, uses + [p]);
      ElevationsKept(sessions, sessions, raised, accepted, factors.accepted, uses, uses + [p]);
      uses := uses + [p];
    }

    /** The row of a new session; with two-factor on, its code was just accepted. */
    method OpenSession(uid: int, token: string, since: int)
      requires Valid() && uid in accounts && token !in sessions
      requires factors.users[uid].on ==> JustShown(uid) && uses[|uses| - 1] == Opened(token)
      modifies this`accounts, this`sessions, this`shown
      ensures Valid() && sessions == old(sessions)[token := Session(uid, since, since, 0)]
      ensures accounts == old(accounts)[uid := old(accounts)[uid].(lastLogin := Some(since))]
    {
      var x := Session(uid, since, since, 0);
      ghost var shown' := if factors.users[uid].on then shown[token := |uses| - 1] else shown;
      SessionOpened(factors.users, sessions, shown, shown', factors.accepted, uses, token, x);
      ElevationsKept(sessions, sessions[token := x], raised, factors.accepted, factors.accepted, uses, uses);
      RowChanged(accounts, names, uid, accounts[uid].(lastLogin := Some(since)));
      sessions, shown := sessions[token := x], shown';
      accounts := accounts[uid := accounts[uid].(lastLogin := Some(since))];
    }

    method Logout(h: string)
      requires Valid()
      modifies this`sessions
      ensures Valid() && sessions == old(sessions) - {h}
    {
      Narrow(sessions - {h});
    }

    /** Sessions end or are seen. */
    method Narrow(rest: map<string, Session>)
      requires Valid()
      requires forall h :: h in rest ==>
                 h in sessions && rest[h].uid == sessions[h].uid && rest[h].elevatedUntil == sessions[h].elevatedUntil
      modifies this`sessions
      ensures Valid() && sessions == rest
    {
      FactorsKept(factors.users, factors.users, sessions, rest, shown, factors.accepted, factors.accepted, uses, uses);
      ElevationsKept(sessions, rest, raised, factors.accepted, factors.accepted, uses, uses);
      sessions := rest;
    }

    /** `user_from_cookie`: who a session is.  An expired one is deleted, a live one marked as seen at most once
        a minute. */
    method UserOf(h: string, now: int, idle: int, max: int) returns (uid: Option<int>)
      requires Valid()
      modifies this`sessions
      ensures Valid()
      ensures uid == if && h in old(sessions) && old(sessions)[h].seen >= now - idle
                        && old(sessions)[h].created >= now - max
                     then Some(old(sessions)[h].uid) else None
      ensures uid.Some? ==> uid.value in accounts
      ensures uid.Some? ==>
                var x := old(sessions)[h];
                sessions == old(sessions)[h := if now - x.seen > 60 then x.(seen := now) else x]
      ensures uid.None? ==> sessions == old(sessions) - {h}
    {
      if h !in sessions {
        return None;
      }
      var x := sessions[h];
      assert SessionOk(factors.users, sessions, shown, factors.accepted, uses, h);
      if Expired(x, now, idle, max) {
        Narrow(sessions - {h});
        return None;
      }
      if now - x.seen > 60 {
        Narrow(sessions[h := x.(seen := now)]);
      }
      uid := Some(x.uid);
    }

    method Prune(now: int, idle: int, max: int)
      requires Valid()
      modifies this`sessions, failures
      ensures Valid() && failures.ops == old(failures.ops) + [LoginLimit.Prune(now)]
      ensures failures.rows == LoginLimit.Kept(old(failures.rows), now - LoginLimit.WINDOW)
      ensures sessions == map h | && h in old(sessions) && old(sessions)[h].seen >= now - idle
                                  && old(sessions)[h].created >= now - max :: old(sessions)[h]
    {
      failures.DeleteOld(now);
      Narrow(map h | h in sessions && !Expired(sessions[h], now, idle, max) :: sessions[h]);
    }

    // ----- The second factor -----

    /** `h` is the session of the request. */
    method Elevate(uid: int, h: string, code: string, at: int, now: int) returns (until: Option<int>)
      requires Valid() && (h in sessions ==> sessions[h].uid == uid)
      modifies this`sessions, this`raised, this`uses, factors
      ensures Valid() && SameFactors(old(factors.users), factors.users)
      ensures factors.ops == old(factors.ops) + [Totp.Elevate(uid, code, at)]
      ensures until == if && uid in old(factors.users) && old(factors.users)[uid].on
                          && old(factors.users)[uid].secret.Some?
                          && VerifyTotp(factors.hotp, old(factors.users)[uid].secret.value, code,
                                        old(factors.users)[uid].last, at) != 0
                       then Some(now + 900) else None
      ensures uses == old(uses) + if until.Some? then [Raised(h, now)] else []
      ensures sessions == if until.Some? && h in old(sessions)
                          then old(sessions)[h := old(sessions)[h].(elevatedUntil := until.value)] else old(sessions)
    {
      until := None;
      var ok := factors.Elevate(uid, code, at);
      if ok {
        Spend(old(factors.users), old(factors.accepted), Raised(h, now));
        until := Some(now + ELEVATE_SECONDS);
        if h in sessions {
          MarkElevated(h, now);
        }
      } else {
        assert factors.accepted == old(factors.accepted);
      }
    }

    /** Elevates a session by the code accepted last, which was spent on that. */
    method MarkElevated(h: string, now: int)
      requires Valid() && h in sessions && uses != [] && uses[|uses| - 1] == Raised(h, now)
      requires factors.accepted[|uses| - 1].uid == sessions[h].uid
      modifies this`sessions, this`raised
      ensures Valid() && sessions == old(sessions)[h := old(sessions)[h].(elevatedUntil := now + ELEVATE_SECONDS)]
    {
      var sessions' := sessions[h := sessions[h].(elevatedUntil := now + ELEVATE_SECONDS)];
      FactorsKept(factors.users, factors.users, sessions, sessions', shown, factors.accepted, factors.accepted,
                  uses, uses);
      sessions, raised := sessions', raised[h := |uses| - 1];
      forall x ensures ElevationOk(sessions, raised, factors.accepted, uses, x) {
        assert ElevationOk(old(sessions), old(raised), factors.accepted, uses, x);
      }
    }

    /** `secret` is the new random secret.  For a user who is gone nothing is stored, and the caller is not told. */
    method Begin(uid: int, code: Option<string>, at: int, secret: Secret) returns (ok: bool)
      requires Valid() && secret !in factors.issued
      modifies factors, this`uses
      ensures Valid() && SameFactors(old(factors.users), factors.users)
      ensures factors.ops == old(factors.ops) + [Totp.Begin(uid, code, at, secret)]
      ensures ok <==> (old(Active(factors.View(), uid)) ==>
                         Use(factors.hotp, old(factors.View()), uid, if code.Some? then code.value else "", at).0)
      ensures uid in accounts && ok ==> factors.users[uid].pending == Some(secret)
      ensures uid !in accounts || !ok ==> factors.users == old(factors.users)
      ensures uses == old(uses) + if old(Active(factors.View(), uid)) && ok then [Renewed(uid)] else []
    {
      ghost var active := Active(factors.View(), uid);
      ok := factors.Begin(uid, code, at, secret);
      if active && ok {
        Spend(old(factors.users), old(factors.accepted), Renewed(uid));
      } else {
        assert factors.accepted == old(factors.accepted);
        FactorsKept(old(factors.users), factors.users, sessions, sessions, shown, factors.accepted, factors.accepted,
                    uses, uses);
      }
    }

    /** The pending secret becomes the active one and all other sessions of the user end. */
    method Confirm(uid: int, h: string, code: string, at: int) returns (ok: bool)
      requires Valid() && (h in sessions ==> sessions[h].uid == uid)
      modifies this`sessions, this`shown, this`uses, factors
      ensures Valid()
      ensures factors.ops == old(factors.ops) + [Totp.Confirm(uid, code, at)]
      ensures ok <==> uid in accounts && old(factors.users)[uid].pending.Some?
                      && VerifyTotp(factors.hotp, old(factors.users)[uid].pending.value, code, 0, at) != 0
      ensures ok ==>
                && factors.users[uid].on && factors.users[uid].pending.None?
                && factors.users[uid].secret == old(factors.users)[uid].pending
      ensures sessions == if ok then Without(old(sessions), uid, Some(h)) else old(sessions)
      ensures uses == old(uses) + if ok then [Confirmed(h)] else []
      ensures !ok ==> factors.users == old(factors.users)
    {
      ok := factors.Confirm(uid, code, at);
      if ok {
        ghost var t := Taken(uid, factors.users[uid].secret.value, factors.users[uid].last);
        SecretConfirmed(old(factors.users), factors.users, sessions, shown, old(factors.accepted), uses, h, t);
        ElevationsKept(sessions, sessions, raised, old(factors.accepted), factors.accepted,
                       uses, uses + [Confirmed(h)]);
        shown, uses := shown[h := |uses|], uses + [Confirmed(h)];
        EndSessions(uid, Some(h));
      }
    }

    method Reset(uid: int)
      requires Valid()
      modifies this`sessions, factors
      ensures Valid() && sessions == Without(old(sessions), uid, None)
      ensures factors.ops == old(factors.ops) + [Totp.Reset(uid)]
      ensures uid in accounts ==> factors.users == old(factors.users)[uid := User(false, None, None, 0)]
    {
      factors.Reset(uid);
      UserEnds(old(factors.users), factors.users, sessions, shown, factors.accepted, uses, uid);
      EndSessions(uid, None);
    }

    // ----- Main results -----

    /** In every reachable state, a session of a user whose two-factor is on showed a code of the secret that is
        active now: the code recorded for it was accepted of that user, and was spent on opening this session or
        on confirming the secret in it. */
    lemma SecondFactorShown(h: string)
      requires Valid() && h in sessions
      ensures sessions[h].uid in factors.users
      ensures factors.users[sessions[h].uid].on ==>
                && h in shown && shown[h] < |factors.accepted|
                && factors.accepted[shown[h]].uid == sessions[h].uid
                && Some(factors.accepted[shown[h]].secret) == factors.users[sessions[h].uid].secret
                && (uses[shown[h]] == Opened(h) || uses[shown[h]] == Confirmed(h))
    {
      assert SessionOk(factors.users, sessions, shown, factors.accepted, uses, h);
    }

    /** The session showed a second factor that its user has to have. */
    predicate TwoFactor(h: string)
      reads this, factors
    {
      h in sessions && sessions[h].uid in factors.users && factors.users[sessions[h].uid].on
    }

    /** One code, one session: the codes of two sessions are different codes. */
    lemma OneCodeOneSession(h: string, g: string)
      requires Valid() && TwoFactor(h) && TwoFactor(g) && h != g
      ensures h in shown && g in shown && shown[h] < |factors.accepted| && shown[g] < |factors.accepted|
      ensures DifferentCodes(factors.accepted[shown[h]], factors.accepted[shown[g]])
    {
      SecondFactorShown(h);
      SecondFactorShown(g);
      IndexesDiffer(shown[h], shown[g]);
    }

    lemma IndexesDiffer(i: nat, j: nat)
      requires factors.Valid() && i < |factors.accepted| && j < |factors.accepted| && i != j
      ensures DifferentCodes(factors.accepted[i], factors.accepted[j])
    {
      NoStepTwice(factors.hotp, factors.ops, if i < j then i else j, if i < j then j else i);
    }

    predicate Elevated(h: string)
      reads this
    {
      h in sessions && sessions[h].elevatedUntil != 0
    }

    /** A session that may do dangerous things at `now` spent an accepted code on that at most fifteen minutes
        before: a code of its own user, of a secret the user had when the code was taken (at operation `k`). */
    lemma ElevatedRecently(h: string, now: int) returns (k: nat)
      requires Valid() && Elevated(h) && now <= sessions[h].elevatedUntil
      ensures h in raised && raised[h] < |factors.accepted| && factors.accepted[raised[h]].uid == sessions[h].uid
      ensures var p := uses[raised[h]]; p.Raised? && p.h == h && now - p.at <= 900
      ensures k < |factors.ops| && factors.ops[k].uid == sessions[h].uid
      ensures var s := Run(factors.hotp, factors.ops[..k]);
              && |s.accepted| == raised[h] && sessions[h].uid in s.users
              && Holds(s.users[sessions[h].uid], factors.accepted[raised[h]].secret)
    {
      assert ElevationOk(sessions, raised, factors.accepted, uses, h);
      k := TakenFromOwner(factors.hotp, factors.ops, raised[h]);
    }

    /** That code opened no session and elevated no other. */
    lemma ElevationHasItsOwnCode(h: string, g: string)
      requires Valid() && Elevated(h)
      ensures h in raised && raised[h] < |factors.accepted|
      ensures TwoFactor(g) ==>
                && g in shown && shown[g] < |factors.accepted|
                && DifferentCodes(factors.accepted[shown[g]], factors.accepted[raised[h]])
      ensures Elevated(g) && g != h ==>
                && g in raised && raised[g] < |factors.accepted|
                && DifferentCodes(factors.accepted[raised[g]], factors.accepted[raised[h]])
    {
      assert ElevationOk(sessions, raised, factors.accepted, uses, h);
      if TwoFactor(g) {
        SecondFactorShown(g);
        IndexesDiffer(shown[g], raised[h]);
      }
      if Elevated(g) && g != h {
        assert ElevationOk(sessions, raised, factors.accepted, uses, g);
        IndexesDiffer(raised[g], raised[h]);
      }
    }
  }

  predicate DifferentCodes(a: Taken, b: Taken) {
    a.secret != b.secret || a.step != b.step
  }
}
