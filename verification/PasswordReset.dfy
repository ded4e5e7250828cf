/**
  Password-reset links: issuing one to the account an address names, and spending it, which reads the
  token in one query and, after hashing the password, writes by mailbox in another. A token stands for
  its own hash, as an injective hash allows, and each issue draws an unused one.
*/
module PasswordReset {
  import opened Wrappers

  const TTL := 3600
  const RESEND_WINDOW := 120
  const MIN_PASSWORD: nat := 8

  /** mailbox is the address in lower case, as both queries compare it. */
  datatype Account = Account(
    mailbox: string, verified: bool, password: Option<string>,
    hash: Option<nat>, expiresAt: Option<int>, sentAt: Option<int>)

  datatype Event =
    | Issued(account: nat, token: nat, at: int)
    | Spent(mailbox: string, token: nat, at: int)

  /** A reset that has read its token and not written the password yet. */
  datatype Claim = Claim(mailbox: string, token: nat, password: string)

  datatype State = State(accounts: map<nat, Account>, clock: int, history: seq<Event>, claims: map<nat, Claim>)

  // ---------- Issuing ----------

  /** ORDER BY (password IS NULL), id DESC: accounts with a password first, then the newest. */
  predicate Preferred(accounts: map<nat, Account>, j: nat, k: nat)
    requires j in accounts && k in accounts
  {
    if accounts[j].password.Some? != accounts[k].password.Some? then accounts[k].password.Some? else j <= k
  }

  predicate IsCandidate(accounts: map<nat, Account>, mailbox: string, k: nat) {
    && k in accounts && accounts[k].mailbox == mailbox
    && forall j :: j in accounts && accounts[j].mailbox == mailbox ==> Preferred(accounts, j, k)
  }

  /** Of the accounts of a mailbox the newest with a password takes the link, or else the newest of all. */
  predicate Takes(accounts: map<nat, Account>, mailbox: string, k: nat) {
    && k in accounts && accounts[k].mailbox == mailbox
    && (forall j :: j in accounts && accounts[j].mailbox == mailbox && accounts[j].password.Some? ==>
          accounts[k].password.Some? && j <= k)
    && (accounts[k].password.None? ==> forall j :: j in accounts && accounts[j].mailbox == mailbox ==> j <= k)
  }

  lemma CandidateIff(accounts: map<nat, Account>, mailbox: string, k: nat)
    ensures IsCandidate(accounts, mailbox, k) <==> Takes(accounts, mailbox, k)
  {
  }

  predicate Due(a: Account, now: int) {
    a.verified && (a.sentAt.None? || a.sentAt.value + RESEND_WINDOW <= now)
  }

  predicate Issues(s: State, mailbox: string, now: int, k: nat) {
    IsCandidate(s.accounts, mailbox, k) && Due(s.accounts[k], now)
  }

  function AfterIssue(s: State, k: nat, token: nat, now: int): State
    requires k in s.accounts
  {
    var a := s.accounts[k].(hash := Some(token), expiresAt := Some(now + TTL), sentAt := Some(now));
    s.(accounts := s.accounts[k := a], clock := now, history := s.history + [Issued(k, token, now)])
  }

  ghost function Forgot(s: State, mailbox: string, token: nat, now: int): State {
    if exists k :: Issues(s, mailbox, now, k) then
      var k :| Issues(s, mailbox, now, k);
      AfterIssue(s, k, token, now)
    else s.(clock := now)
  }

  lemma CandidateIsUnique(accounts: map<nat, Account>, mailbox: string, j: nat, k: nat)
    requires IsCandidate(accounts, mailbox, j) && IsCandidate(accounts, mailbox, k)
    ensures j == k
  {
    assert Preferred(accounts, j, k) && Preferred(accounts, k, j);
  }

  // ---------- Spending ----------

  predicate Unlocks(a: Account, token: nat, now: int) {
    a.hash == Some(token) && a.expiresAt.Some? && now < a.expiresAt.value
  }

  /** ORDER BY id DESC LIMIT 1 among the accounts the token unlocks. */
  predicate IsUnlocked(s: State, token: nat, now: int, k: nat) {
    && k in s.accounts && Unlocks(s.accounts[k], token, now)
    && forall j :: j in s.accounts && Unlocks(s.accounts[j], token, now) ==> j <= k
  }

  lemma {:induction false} LargestOf(s: set<nat>) returns (k: nat)
    requires s != {}
    ensures k in s && forall j :: j in s ==> j <= k
    decreases s
  {
    k :| k in s;
    if s != {k} {
      var first := k;
      var rest := LargestOf(s - {k});
      k := if rest > first then rest else first;
      assert forall j :: j in s ==> j == first || j in s - {first};
    }
  }

  /** Where some account is unlocked there is one with the largest id. */
  lemma SomeIsUnlocked(s: State, token: nat, now: int)
    ensures (exists k :: k in s.accounts && Unlocks(s.accounts[k], token, now))
       <==> (exists k :: IsUnlocked(s, token, now, k))
  {
    var unlocked := set k | k in s.accounts && Unlocks(s.accounts[k], token, now);
    if unlocked != {} {
      var k := LargestOf(unlocked);
      forall j | j in s.accounts && Unlocks(s.accounts[j], token, now) ensures j <= k {
        assert j in unlocked;
      }
      assert IsUnlocked(s, token, now, k);
    } else {
      forall k | k in s.accounts ensures !Unlocks(s.accounts[k], token, now) {
        assert k !in unlocked;
      }
    }
  }

  function Cleared(a: Account, password: string): Account {
    a.(password := Some(password), hash := None, expiresAt := None, sentAt := None)
  }

  /** Every account of the mailbox takes the password and forgets its link. */
  function ClearAll(accounts: map<nat, Account>, mailbox: string, password: string): map<nat, Account> {
    map j | j in accounts :: if accounts[j].mailbox == mailbox then Cleared(accounts[j], password) else accounts[j]
  }

  /** The reading half: a claim on the mailbox of the account the token unlocks. */
  ghost function Claimed(s: State, request: nat, token: nat, password: string, confirmed: bool, now: int): State {
    if |password| >= MIN_PASSWORD && confirmed && exists k :: IsUnlocked(s, token, now, k) then
      var k :| IsUnlocked(s, token, now, k);
      s.(clock := now, claims := s.claims[request := Claim(s.accounts[k].mailbox, token, password)])
    else s.(clock := now)
  }

  /** The writing half, by mailbox, whatever has become of the token. */
  function Settled(s: State, request: nat, now: int): State
    requires request in s.claims
  {
    var c := s.claims[request];
    State(ClearAll(s.accounts, c.mailbox, c.password), now, s.history + [Spent(c.mailbox, c.token, now)],
          s.claims - {request})
  }

  // ---------- Runs ----------

  datatype Action =
    | ForgotPassword(mailbox: string, token: nat, now: int)
    | CheckToken(request: nat, token: nat, password: string, confirmed: bool, now: int)
    | SetPassword(request: nat, now: int)
      // An account registers, verifies its address, or is given another password; its address stays.
    | Amend(account: nat, mailbox: string, verified: bool, given: Option<string>, now: int)

  function Mentioned(history: seq<Event>): set<nat> {
    set e | e in history :: e.token
  }

  /** Time does not run backwards, a drawn token is new, and a password is set by a request that has a claim. */
  ghost predicate Legal(s: State, a: Action) {
    && s.clock <= a.now
    && match a
       case ForgotPassword(_, token, _) => token !in Mentioned(s.history)
       case CheckToken(request, _, _, _, _) => request !in s.claims
       case SetPassword(request, _) => request in s.claims
       case Amend(_, _, _, _, _) => true
  }

  ghost function Apply(s: State, a: Action): State {
    match a
    case ForgotPassword(mailbox, token, now) => Forgot(s, mailbox, token, now)
    case CheckToken(request, token, password, confirmed, now) => Claimed(s, request, token, password, confirmed, now)
    case SetPassword(request, now) => if request in s.claims then Settled(s, request, now) else s
    case Amend(k, mailbox, verified, given, now) =>
      s.(clock := now, accounts := s.accounts[k := Amended(s.accounts, k, mailbox, verified, given)])
  }

  function Amended(accounts: map<nat, Account>, k: nat, mailbox: string, verified: bool, password: Option<string>)
    : Account
  {
    if k in accounts then accounts[k].(verified := verified, password := password)
    else Account(mailbox, verified, password, None, None, None)
  }

  ghost function Run(s: State, actions: seq<Action>): State {
    if |actions| == 0 then s else Apply(Run(s, actions[..|actions| - 1]), actions[|actions| - 1])
  }

  ghost predicate LegalRun(s: State, actions: seq<Action>) {
    forall i :: 0 <= i < |actions| ==> Legal(Run(s, actions[..i]), actions[i])
  }

  // ---------- The history behind a state ----------

  /** The event concerns the account: a link issued to it, or one spent on its mailbox. */
  predicate Concerns(e: Event, k: nat, mailbox: string) {
    match e case Issued(id, _, _) => id == k case Spent(m, _, _) => m == mailbox
  }

  function Latest(history: seq<Event>, k: nat, mailbox: string): Option<Event> {
    if |history| == 0 then None
    else if Concerns(history[|history| - 1], k, mailbox) then Some(history[|history| - 1])
    else Latest(history[..|history| - 1], k, mailbox)
  }

  /** The account's columns are what its latest event left. */
  ghost predicate Explained(s: State, k: nat)
    requires k in s.accounts
  {
    var a := s.accounts[k];
    match Latest(s.history, k, a.mailbox)
    case Some(Issued(_, token, at)) =>
      a.hash == Some(token) && a.expiresAt == Some(at + TTL) && a.sentAt == Some(at) && at <= s.clock
    case _ => a.hash.None? && a.expiresAt.None? && a.sentAt.None?
  }

  ghost predicate AllExplained(s: State) {
    forall k :: k in s.accounts ==> Explained(s, k)
  }

  /** Live tokens were issued, belong to one account and are unspent; claims are on their owner's mailbox. */
  ghost predicate TokensDistinct(s: State) {
    LiveIssued(s) && OneOwner(s) && LiveUnspent(s) && ClaimsOwn(s)
  }

  ghost predicate ClaimsOwn(s: State) {
    forall q :: q in s.claims ==>
      && s.claims[q].token in Mentioned(s.history)
      && forall j :: j in s.accounts && s.accounts[j].hash == Some(s.claims[q].token) ==>
           s.accounts[j].mailbox == s.claims[q].mailbox
  }

  ghost predicate LiveIssued(s: State) {
    forall k :: k in s.accounts && s.accounts[k].hash.Some? ==> s.accounts[k].hash.value in Mentioned(s.history)
  }

  ghost predicate OneOwner(s: State) {
    forall j, k | j in s.accounts && k in s.accounts && s.accounts[j].hash.Some? ::
      s.accounts[j].hash == s.accounts[k].hash ==> j == k
  }

  function SpentTokens(history: seq<Event>): set<nat> {
    set e | e in history && e.Spent? :: e.token
  }

  ghost predicate LiveUnspent(s: State) {
    forall k :: k in s.accounts && s.accounts[k].hash.Some? ==> s.accounts[k].hash.value !in SpentTokens(s.history)
  }

  ghost predicate SpentOnce(history: seq<Event>) {
    forall i, j | 0 <= i < j < |history| && history[i].Spent? && history[j].Spent? ::
      history[i].token != history[j].token
  }

  /** Links to one account with nothing spent between them are a resend window apart. */
  ghost predicate Spaced(s: State) {
    forall i :: 0 <= i < |s.history| && s.history[i].Issued? && s.history[i].account in s.accounts ==>
      SpacedAt(s.history, i, s.accounts[s.history[i].account].mailbox)
  }

  predicate SpacedAt(history: seq<Event>, i: nat, mailbox: string)
    requires i < |history| && history[i].Issued?
  {
    match Latest(history[..i], history[i].account, mailbox)
    case Some(Issued(_, _, at)) => at + RESEND_WINDOW <= history[i].at
    case _ => true
  }

  /** Links are issued to accounts there are. */
  ghost predicate IssuedKnown(s: State) {
    forall e :: e in s.history && e.Issued? ==> e.account in s.accounts
  }

  ghost predicate Inv(s: State) {
    AllExplained(s) && TokensDistinct(s) && Spaced(s) && IssuedKnown(s)
  }

  lemma LatestAfter(history: seq<Event>, e: Event, k: nat, mailbox: string)
    ensures Latest(history + [e], k, mailbox)
         == if Concerns(e, k, mailbox) then Some(e) else Latest(history, k, mailbox)
  {
    assert (history + [e])[..|history|] == history;
  }

  lemma SpacedAppend(s: State, t: State, e: Event)
    requires Spaced(s) && t.history == s.history + [e]
    requires t.accounts.Keys == s.accounts.Keys
    requires forall k :: k in s.accounts ==> t.accounts[k].mailbox == s.accounts[k].mailbox
    requires e.Issued? && e.account in s.accounts ==> SpacedAt(t.history, |s.history|, s.accounts[e.account].mailbox)
    ensures Spaced(t)
  {
    hide Latest;
    forall i | 0 <= i < |t.history| && t.history[i].Issued? && t.history[i].account in t.accounts
      ensures SpacedAt(t.history, i, t.accounts[t.history[i].account].mailbox)
    {
      if i < |s.history| {
        assert t.history[..i] == s.history[..i] && t.history[i] == s.history[i];
        assert SpacedAt(s.history, i, s.accounts[s.history[i].account].mailbox);
      }
    }
  }

  lemma IssueKeepsInv(s: State, k: nat, token: nat, now: int)
    requires Inv(s) && s.clock <= now && k in s.accounts && Due(s.accounts[k], now) && token !in Mentioned(s.history)
    ensures Inv(AfterIssue(s, k, token, now))
  {
    hide Latest, TokensDistinct, Mentioned;
    var e := Issued(k, token, now);
    var t := AfterIssue(s, k, token, now);
    forall j | j in t.accounts ensures Explained(t, j) {
      LatestAfter(s.history, e, j, t.accounts[j].mailbox);
      assert Explained(s, j);
    }
    IssueKeepsTokens(s, t, k, token, e);
    assert t.history[..|s.history|] == s.history;
    assert Explained(s, k);
    SpacedAppend(s, t, e);
  }

  lemma TokensAfter(history: seq<Event>, e: Event)
    ensures Mentioned(history + [e]) == Mentioned(history) + {e.token}
    ensures SpentTokens(history + [e]) == SpentTokens(history) + if e.Spent? then {e.token} else {}
    ensures SpentTokens(history) <= Mentioned(history)
  {
    var after := history + [e];
    assert forall x :: x in after <==> x in history || x == e;
    assert e in after;
  }

  lemma IssueKeepsTokens(s: State, t: State, k: nat, token: nat, e: Event)
    requires TokensDistinct(s) && k in s.accounts && token !in Mentioned(s.history) && e == Issued(k, token, t.clock)
    requires t.history == s.history + [e] && t.accounts.Keys == s.accounts.Keys && t.claims == s.claims
    requires forall j :: j in s.accounts ==> t.accounts[j].mailbox == s.accounts[j].mailbox
    requires forall j :: j in s.accounts ==> t.accounts[j].hash == if j == k then Some(token) else s.accounts[j].hash
    ensures TokensDistinct(t)
  {
    hide Mentioned, SpentTokens;
    TokensAfter(s.history, e);
  }

  lemma SpendKeepsInv(s: State, request: nat, now: int)
    requires Inv(s) && s.clock <= now && request in s.claims
    ensures Inv(Settled(s, request, now))
  {
    hide Latest, TokensDistinct;
    var c := s.claims[request];
    var e := Spent(c.mailbox, c.token, now);
    var t := Settled(s, request, now);
    forall j | j in t.accounts ensures Explained(t, j) {
      LatestAfter(s.history, e, j, t.accounts[j].mailbox);
      assert Explained(s, j);
    }
    SpendKeepsTokens(s, t, request, e);
    SpacedAppend(s, t, e);
  }

  lemma SpendKeepsTokens(s: State, t: State, request: nat, e: Event)
    requires TokensDistinct(s) && request in s.claims
    requires e == Spent(s.claims[request].mailbox, s.claims[request].token, t.clock)
    requires t.history == s.history + [e] && t.accounts.Keys == s.accounts.Keys && t.claims == s.claims - {request}
    requires forall j :: j in s.accounts ==> t.accounts[j].mailbox == s.accounts[j].mailbox
    requires forall j :: j in s.accounts ==>
               t.accounts[j].hash
               == if s.accounts[j].mailbox == s.claims[request].mailbox then None else s.accounts[j].hash
    ensures TokensDistinct(t)
  {
    hide Mentioned, SpentTokens;
    TokensAfter(s.history, e);
  }

  lemma LaterKeepsInv(s: State, now: int)
    requires Inv(s) && s.clock <= now
    ensures Inv(s.(clock := now))
  {
    hide Latest, SpacedAt, Mentioned, SpentTokens;
    var t := s.(clock := now);
    forall k | k in t.accounts ensures Explained(t, k) {
      assert Explained(s, k);
    }
  }

  lemma ClaimKeepsInv(s: State, request: nat, token: nat, password: string, now: int, k: nat)
    requires Inv(s) && s.clock <= now && k in s.accounts && s.accounts[k].hash == Some(token)
    ensures Inv(s.(clock := now, claims := s.claims[request := Claim(s.accounts[k].mailbox, token, password)]))
  {
    hide Latest, SpacedAt, Mentioned, SpentTokens;
    LaterKeepsInv(s, now);
    var u := s.(clock := now);
    var t := u.(claims := s.claims[request := Claim(s.accounts[k].mailbox, token, password)]);
    forall j | j in t.accounts ensures Explained(t, j) {
      assert Explained(u, j);
    }
  }

  lemma {:induction false} LatestOccurs(history: seq<Event>, k: nat, mailbox: string)
    ensures Latest(history, k, mailbox).Some? ==>
              Latest(history, k, mailbox).value in history && Concerns(Latest(history, k, mailbox).value, k, mailbox)
  {
    if |history| > 0 {
      LatestOccurs(history[..|history| - 1], k, mailbox);
    }
  }

  /** Account k is new and without a link, or has the link and the address it had. */
  ghost predicate SameLinks(s: State, t: State, k: nat) {
    && s.clock <= t.clock && t.history == s.history && t.claims == s.claims
    && k in t.accounts && t.accounts == s.accounts[k := t.accounts[k]]
    && var a := t.accounts[k];
       if k in s.accounts then a == s.accounts[k].(verified := a.verified, password := a.password)
       else a.hash.None? && a.expiresAt.None? && a.sentAt.None?
  }

  lemma AmendedIsExplained(s: State, t: State, k: nat, j: nat)
    requires AllExplained(s) && IssuedKnown(s) && SameLinks(s, t, k) && j in t.accounts
    ensures Explained(t, j)
  {
    hide Latest;
    if j in s.accounts {
      assert Explained(s, j);
    } else {
      LatestOccurs(s.history, j, t.accounts[j].mailbox);
    }
  }

  lemma AmendKeepsTokens(s: State, t: State, k: nat)
    requires TokensDistinct(s) && SameLinks(s, t, k)
    ensures TokensDistinct(t)
  {
    hide Mentioned, SpentTokens;
  }

  lemma AmendKeepsInv(s: State, k: nat, mailbox: string, verified: bool, password: Option<string>, now: int)
    requires Inv(s) && s.clock <= now
    ensures Inv(Apply(s, Amend(k, mailbox, verified, password, now)))
  {
    hide Latest, SpacedAt, TokensDistinct, Explained;
    var t := s.(clock := now, accounts := s.accounts[k := Amended(s.accounts, k, mailbox, verified, password)]);
    forall j | j in t.accounts ensures Explained(t, j) {
      AmendedIsExplained(s, t, k, j);
    }
    AmendKeepsTokens(s, t, k);
    forall i | 0 <= i < |t.history| && t.history[i].Issued? && t.history[i].account in t.accounts
      ensures SpacedAt(t.history, i, t.accounts[t.history[i].account].mailbox)
    {
      assert t.history[i] in s.history;
    }
  }

  lemma StepKeepsInv(s: State, a: Action)
    requires Inv(s) && Legal(s, a)
    ensures Inv(Apply(s, a))
  {
    hide Inv, IsCandidate, Due, ClearAll, AfterIssue, Settled, Mentioned, Amended;
    LaterKeepsInv(s, a.now);
    match a
    case ForgotPassword(mailbox, token, now) =>
      if exists k :: Issues(s, mailbox, now, k) {
        var k :| Issues(s, mailbox, now, k);
        IssuedAccount(s, mailbox, now, k);
        IssueKeepsInv(s, k, token, now);
        ForgotIs(s, mailbox, token, now, k);
      }
    case CheckToken(request, token, password, confirmed, now) =>
      if |password| >= MIN_PASSWORD && confirmed && exists k :: IsUnlocked(s, token, now, k) {
        var k :| IsUnlocked(s, token, now, k);
        ClaimKeepsInv(s, request, token, password, now, k);
        ClaimIs(s, request, token, password, now, k);
      }
    case SetPassword(request, now) => SpendKeepsInv(s, request, now);
    case Amend(k, mailbox, verified, given, now) => AmendKeepsInv(s, k, mailbox, verified, given, now);
  }

  lemma IssuedAccount(s: State, mailbox: string, now: int, k: nat)
    requires Issues(s, mailbox, now, k)
    ensures k in s.accounts && Due(s.accounts[k], now)
  {
  }

  /** There is one account a request issues to, and one a token unlocks. */
  lemma ForgotIs(s: State, mailbox: string, token: nat, now: int, k: nat)
    requires Issues(s, mailbox, now, k)
    ensures Forgot(s, mailbox, token, now) == AfterIssue(s, k, token, now)
  {
    hide IsCandidate, Due, AfterIssue;
    forall j | Issues(s, mailbox, now, j) ensures j == k {
      CandidateIsUnique(s.accounts, mailbox, j, k);
    }
  }

  lemma ClaimIs(s: State, request: nat, token: nat, password: string, now: int, k: nat)
    requires |password| >= MIN_PASSWORD && IsUnlocked(s, token, now, k)
    ensures Claimed(s, request, token, password, true, now) ==
            s.(clock := now, claims := s.claims[request := Claim(s.accounts[k].mailbox, token, password)])
  {
    hide Unlocks;
    forall j | IsUnlocked(s, token, now, j) ensures j == k {
    }
  }

  lemma {:induction false} RunKeepsInv(s: State, actions: seq<Action>)
    requires Inv(s) && LegalRun(s, actions)
    ensures Inv(Run(s, actions))
  {
    hide Inv, Apply, Legal;
    if |actions| > 0 {
      LegalPrefix(s, actions);
      RunKeepsInv(s, actions[..|actions| - 1]);
      StepKeepsInv(Run(s, actions[..|actions| - 1]), actions[|actions| - 1]);
    }
  }

  lemma LegalPrefix(s: State, actions: seq<Action>)
    requires |actions| > 0 && LegalRun(s, actions)
    ensures LegalRun(s, actions[..|actions| - 1])
    ensures Legal(Run(s, actions[..|actions| - 1]), actions[|actions| - 1])
  {
    hide Legal, Run;
    var init := actions[..|actions| - 1];
    forall i | 0 <= i < |init| ensures Legal(Run(s, init[..i]), init[i]) {
      assert init[..i] == actions[..i];
    }
  }

  ghost predicate Fresh(s: State) {
    s.history == [] && s.claims == map[] && forall k :: k in s.accounts ==>
      s.accounts[k].hash.None? && s.accounts[k].expiresAt.None? && s.accounts[k].sentAt.None?
  }

  lemma FreshIsInv(s: State)
    requires Fresh(s)
    ensures Inv(s)
  {
  }

  // ---------- What every run guarantees ----------

  /**
   * A token that unlocks an account after any run is the latest link issued to it, issued less than
   * an hour ago, with nothing spent on its mailbox since, and was never spent before.
   */
  lemma UnlockingTokenIsLatest(s: State, actions: seq<Action>, k: nat, token: nat, now: int)
    requires Fresh(s) && LegalRun(s, actions)
    requires k in Run(s, actions).accounts && Run(s, actions).clock <= now
    requires Unlocks(Run(s, actions).accounts[k], token, now)
    ensures var t := Run(s, actions);
            var e := Latest(t.history, k, t.accounts[k].mailbox);
            && e.Some? && e.value.Issued? && e.value.token == token
            && e.value.at <= now < e.value.at + TTL
            && token !in SpentTokens(t.history)
            && (forall j :: j in t.accounts && Unlocks(t.accounts[j], token, now) ==> j == k)
  {
    hide Latest, LegalRun, Run, Spaced, SpentOnce;
    FreshIsInv(s);
    RunKeepsInv(s, actions);
    var t := Run(s, actions);
    assert Explained(t, k);
  }

  /** The action sets a password for a token that another request has spent. */
  ghost predicate SpendsAgain(s: State, a: Action) {
    a.SetPassword? && a.request in s.claims && s.claims[a.request].token in SpentTokens(s.history)
  }

  lemma SpentOnceAfterIff(history: seq<Event>, e: Event)
    requires SpentOnce(history)
    ensures SpentOnce(history + [e]) <==> !(e.Spent? && e.token in SpentTokens(history))
  {
    if e.Spent? && e.token in SpentTokens(history) {
      var x :| x in history && x.Spent? && x.token == e.token;
      var i :| 0 <= i < |history| && history[i] == x;
      assert (history + [e])[i].token == (history + [e])[|history|].token;
    } else {
      forall i | 0 <= i < |history| && history[i].Spent? ensures history[i].token in SpentTokens(history) {
        assert history[i] in history;
      }
    }
  }

  /** A step keeps every token spent once exactly when it is not such a write. */
  lemma SpentOnceKeptIff(s: State, a: Action)
    requires SpentOnce(s.history)
    ensures SpentOnce(Apply(s, a).history) <==> !SpendsAgain(s, a)
  {
    hide SpentOnce, SpentTokens, Issues, IsUnlocked, ClearAll;
    match a
    case ForgotPassword(mailbox, token, now) =>
      if exists k :: Issues(s, mailbox, now, k) {
        var k :| Issues(s, mailbox, now, k);
        ForgotIs(s, mailbox, token, now, k);
        SpentOnceAfterIff(s.history, Issued(k, token, now));
      }
    case CheckToken(_, _, _, _, _) =>
    case SetPassword(request, now) =>
      if request in s.claims {
        SpentOnceAfterIff(s.history, Spent(s.claims[request].mailbox, s.claims[request].token, now));
      }
    case Amend(_, _, _, _, _) =>
  }

  ghost predicate NoneSpendsAgain(s: State, actions: seq<Action>) {
    forall i :: 0 <= i < |actions| ==> !SpendsAgain(Run(s, actions[..i]), actions[i])
  }

  lemma NoneBefore(s: State, actions: seq<Action>)
    requires |actions| > 0
    ensures NoneSpendsAgain(s, actions) <==>
            (NoneSpendsAgain(s, actions[..|actions| - 1])
            && !SpendsAgain(Run(s, actions[..|actions| - 1]), actions[|actions| - 1]))
  {
    hide SpendsAgain, Run;
    var init := actions[..|actions| - 1];
    assert forall i :: 0 <= i < |init| ==> init[..i] == actions[..i] && init[i] == actions[i];
    if NoneSpendsAgain(s, init) && !SpendsAgain(Run(s, init), actions[|actions| - 1]) {
      forall i | 0 <= i < |actions| ensures !SpendsAgain(Run(s, actions[..i]), actions[i]) {
        if i < |init| {
          assert !SpendsAgain(Run(s, init[..i]), init[i]);
        }
      }
    }
  }

  lemma StaysSpent(s: State, a: Action)
    requires !SpentOnce(s.history)
    ensures !SpentOnce(Apply(s, a).history)
  {
    hide Issues, IsUnlocked, ClearAll;
    var h, h' := s.history, Apply(s, a).history;
    var i, j :| 0 <= i < j < |h| && h[i].Spent? && h[j].Spent? && h[i].token == h[j].token;
    assert |h| <= |h'| && h'[..|h|] == h;
    assert h'[i] == h[i] && h'[j] == h[j];
  }

  lemma {:induction false} SpentOnceIffNoneAgain(s: State, actions: seq<Action>)
    requires SpentOnce(s.history)
    ensures SpentOnce(Run(s, actions).history) <==> NoneSpendsAgain(s, actions)
  {
    hide SpentOnce, NoneSpendsAgain, SpendsAgain, Apply;
    if |actions| == 0 {
      NothingSpent(s);
      assert actions == [];
    } else {
      var init, last := actions[..|actions| - 1], actions[|actions| - 1];
      SpentOnceIffNoneAgain(s, init);
      NoneBefore(s, actions);
      if SpentOnce(Run(s, init).history) {
        SpentOnceKeptIff(Run(s, init), last);
      } else {
        StaysSpent(Run(s, init), last);
      }
    }
  }

  lemma NothingSpent(s: State)
    ensures NoneSpendsAgain(s, [])
  {
  }

  // ---------- How a claim goes stale ----------

  /** The request holds a claim whose token has been spent since. */
  ghost predicate Stale(s: State, q: nat) {
    q in s.claims && s.claims[q].token in SpentTokens(s.history)
  }

  /** The action sets a password by another claim on the same token. */
  predicate Overtakes(s: State, a: Action, q: nat) {
    && a.SetPassword? && a.request != q && a.request in s.claims && q in s.claims
    && s.claims[a.request].token == s.claims[q].token
  }

  /** A claim stays as it is until its own request writes; it goes stale exactly when another one on its token does. */
  lemma GoesStaleIff(s: State, a: Action, q: nat)
    requires Legal(s, a) && q in s.claims && !(a.SetPassword? && a.request == q)
    ensures q in Apply(s, a).claims && Apply(s, a).claims[q] == s.claims[q]
    ensures Stale(Apply(s, a), q) <==> Stale(s, q) || Overtakes(s, a, q)
  {
    hide SpentTokens, Issues, IsUnlocked, ClearAll, Mentioned;
    match a
    case ForgotPassword(mailbox, token, now) =>
      if exists k :: Issues(s, mailbox, now, k) {
        var k :| Issues(s, mailbox, now, k);
        ForgotIs(s, mailbox, token, now, k);
        TokensAfter(s.history, Issued(k, token, now));
      }
    case CheckToken(_, _, _, _, _) =>
    case SetPassword(request, now) =>
      TokensAfter(s.history, Spent(s.claims[request].mailbox, s.claims[request].token, now));
    case Amend(_, _, _, _, _) =>
  }

  /** No claim is born stale: a token that unlocks is unspent. */
  lemma NoneBornStale(s: State, a: Action, q: nat)
    requires Inv(s) && Legal(s, a) && q !in s.claims
    ensures !Stale(Apply(s, a), q)
  {
    hide AllExplained, Spaced, LiveIssued, OneOwner, ClaimsOwn, Mentioned, SpentTokens, ClearAll, Issues, IsCandidate;
    hide Forgot;
    match a
    case ForgotPassword(mailbox, token, now) => ForgotKeepsClaims(s, mailbox, token, now);
    case CheckToken(_, _, _, _, _) =>
    case _ =>
  }

  lemma ForgotKeepsClaims(s: State, mailbox: string, token: nat, now: int)
    ensures Forgot(s, mailbox, token, now).claims == s.claims
  {
    hide Issues;
  }

  /** Action i sets a password by one claim while request q holds another on the same token, and q writes at j. */
  ghost predicate Overlap(s: State, actions: seq<Action>, i: nat, j: nat) {
    && i < j < |actions| && actions[j].SetPassword?
    && Overtakes(Run(s, actions[..i]), actions[i], actions[j].request)
  }

  ghost predicate Overlaps(s: State, actions: seq<Action>) {
    exists i, j :: Overlap(s, actions, i, j)
  }

  lemma StepOfRun(s: State, actions: seq<Action>, i: nat)
    requires i < |actions|
    ensures Run(s, actions[..i + 1]) == Apply(Run(s, actions[..i]), actions[i])
  {
    hide Apply;
    assert actions[..i + 1][..i] == actions[..i];
  }

  lemma InvOfPrefix(s: State, actions: seq<Action>, i: nat)
    requires Inv(s) && LegalRun(s, actions) && i <= |actions|
    ensures Inv(Run(s, actions[..i]))
  {
    hide Inv, Run, Legal;
    assert forall h :: 0 <= h < i ==> actions[..i][..h] == actions[..h] && actions[..i][h] == actions[h];
    RunKeepsInv(s, actions[..i]);
  }

  /** Behind every stale claim there is the step that overtook it. */
  lemma {:induction false} StaleWasOvertaken(s: State, actions: seq<Action>, j: nat, q: nat) returns (i: nat)
    requires Inv(s) && s.claims == map[] && LegalRun(s, actions) && j <= |actions|
    requires Stale(Run(s, actions[..j]), q)
    ensures i < j && Overtakes(Run(s, actions[..i]), actions[i], q)
    decreases j
  {
    hide Inv, Apply, Legal, Overtakes;
    if j == 0 {
      NothingRun(s, actions);
      assert false;
    } else {
      StepOfRun(s, actions, j - 1);
      InvOfPrefix(s, actions, j - 1);
      var before, a := Run(s, actions[..j - 1]), actions[j - 1];
      hide Run, LegalRun, Stale;
      assert Legal(before, a) by { LegalAt(s, actions, j - 1); }
      if q !in before.claims {
        NoneBornStale(before, a, q);
      }
      if a.SetPassword? && a.request == q {
        WrittenIsGone(before, a);
      }
      GoesStaleIff(before, a, q);
      if Overtakes(before, a, q) {
        i := j - 1;
      } else {
        i := StaleWasOvertaken(s, actions, j - 1, q);
      }
    }
  }

  lemma LegalAt(s: State, actions: seq<Action>, i: nat)
    requires LegalRun(s, actions) && i < |actions|
    ensures Legal(Run(s, actions[..i]), actions[i])
  {
  }

  lemma NothingRun(s: State, actions: seq<Action>)
    ensures Run(s, actions[..0]) == s
  {
  }

  lemma WrittenIsGone(s: State, a: Action)
    requires a.SetPassword? && a.request in s.claims
    ensures !Stale(Apply(s, a), a.request)
  {
    hide ClearAll, SpentTokens;
  }

  /** A stale claim that is written at j, or before, spends its token again. */
  lemma {:induction false} StaleSpendsAgain(s: State, actions: seq<Action>, h: nat, j: nat) returns (n: nat)
    requires LegalRun(s, actions) && h <= j < |actions| && actions[j].SetPassword?
    requires Stale(Run(s, actions[..h]), actions[j].request)
    ensures n < |actions| && SpendsAgain(Run(s, actions[..n]), actions[n])
    decreases j - h
  {
    hide Apply, Legal, Run, LegalRun;
    var q := actions[j].request;
    if actions[h].SetPassword? && actions[h].request == q {
      n := h;
    } else {
      LegalAt(s, actions, h);
      GoesStaleIff(Run(s, actions[..h]), actions[h], q);
      StepOfRun(s, actions, h);
      n := StaleSpendsAgain(s, actions, h + 1, j);
    }
  }

  lemma OverlapSpendsAgain(s: State, actions: seq<Action>, i: nat, j: nat) returns (n: nat)
    requires LegalRun(s, actions) && Overlap(s, actions, i, j)
    ensures n < |actions| && SpendsAgain(Run(s, actions[..n]), actions[n])
  {
    hide Apply, Legal, Run, LegalRun, Stale, SpendsAgain;
    LegalAt(s, actions, i);
    GoesStaleIff(Run(s, actions[..i]), actions[i], actions[j].request);
    StepOfRun(s, actions, i);
    n := StaleSpendsAgain(s, actions, i + 1, j);
  }

  /**
   * Over any run some token is spent twice exactly when two requests overlap on it: one sets its password
   * while the other, which has read the same token, still holds its claim, and the other writes later.
   */
  lemma TokensAreSpentOnceIff(s: State, actions: seq<Action>)
    requires Fresh(s) && LegalRun(s, actions)
    ensures SpentOnce(Run(s, actions).history) <==> !Overlaps(s, actions)
  {
    hide Inv, LegalRun, Run, SpendsAgain, Overlap, SpentOnce;
    FreshIsInv(s);
    assert SpentOnce(s.history) by { assert s.history == []; NothingSpentYet(); }
    SpentOnceIffNoneAgain(s, actions);
    if !NoneSpendsAgain(s, actions) {
      var j :| 0 <= j < |actions| && SpendsAgain(Run(s, actions[..j]), actions[j]);
      AgainIsStale(Run(s, actions[..j]), actions[j]);
      var i := StaleWasOvertaken(s, actions, j, actions[j].request);
      assert Overlap(s, actions, i, j) by { AreOverlapping(s, actions, i, j); }
    }
    if Overlaps(s, actions) {
      var i, j :| Overlap(s, actions, i, j);
      var n := OverlapSpendsAgain(s, actions, i, j);
    }
  }

  lemma NothingSpentYet()
    ensures SpentOnce([])
  {
  }

  lemma AgainIsStale(s: State, a: Action)
    requires SpendsAgain(s, a)
    ensures a.SetPassword? && Stale(s, a.request)
  {
  }

  lemma AreOverlapping(s: State, actions: seq<Action>, i: nat, j: nat)
    requires i < j < |actions| && actions[j].SetPassword?
    requires Overtakes(Run(s, actions[..i]), actions[i], actions[j].request)
    ensures Overlap(s, actions, i, j)
  {
  }

  /** No two requests hold a claim with the same token. */
  ghost predicate OneHolder(s: State) {
    forall p, q :: p in s.claims && q in s.claims && s.claims[p].token == s.claims[q].token ==> p == q
  }

  /** So over any run in which no two requests hold the same token at once, every token is spent once. */
  lemma TokensAreSpentOnce(s: State, actions: seq<Action>)
    requires Fresh(s) && LegalRun(s, actions)
    requires forall i :: 0 <= i <= |actions| ==> OneHolder(Run(s, actions[..i]))
    ensures SpentOnce(Run(s, actions).history)
  {
    hide Inv, Fresh, LegalRun, Run, SpentOnce, Overlap;
    forall i: nat, j: nat ensures !Overlap(s, actions, i, j) {
      HeldOnceIsNoOverlap(s, actions, i, j);
    }
    TokensAreSpentOnceIff(s, actions);
  }

  lemma HeldOnceIsNoOverlap(s: State, actions: seq<Action>, i: nat, j: nat)
    requires i < |actions| ==> OneHolder(Run(s, actions[..i]))
    ensures !Overlap(s, actions, i, j)
  {
  }

  /**
   * From every reachable state, two requests p and q that read a token unlocking account k before either
   * writes both set a password: the token is spent twice.
   */
  lemma TokenCanBeSpentTwice(s: State, p: nat, q: nat, k: nat, password: string) returns (actions: seq<Action>)
    requires Inv(s) && p != q && p !in s.claims && q !in s.claims && |password| >= MIN_PASSWORD
    requires k in s.accounts && s.accounts[k].hash.Some? && Unlocks(s.accounts[k], s.accounts[k].hash.value, s.clock)
    ensures LegalRun(s, actions) && !SpentOnce(Run(s, actions).history)
  {
    hide AllExplained, Spaced, LiveUnspent, LiveIssued, ClaimsOwn, Claimed, ClearAll, Mentioned;
    var token, now := s.accounts[k].hash.value, s.clock;
    assert IsUnlocked(s, token, now, k);
    var a, b, c, d := CheckToken(p, token, password, true, now), CheckToken(q, token, password, true, now),
                      SetPassword(p, now), SetPassword(q, now);
    ClaimIs(s, p, token, password, now, k);
    var s1 := Apply(s, a);
    assert IsUnlocked(s1, token, now, k);
    ClaimIs(s1, q, token, password, now, k);
    var s2 := Apply(s1, b);
    var s3 := Apply(s2, c);
    var s4 := Apply(s3, d);
    actions := [a, b, c, d];
    FourSteps(s, a, b, c, d);
    assert s4.history[|s.history|].Spent? && s4.history[|s.history| + 1].Spent?;
    assert s4.history[|s.history|].token == s4.history[|s.history| + 1].token;
  }

  lemma FourSteps(s: State, a: Action, b: Action, c: Action, d: Action)
    requires Legal(s, a) && Legal(Apply(s, a), b) && Legal(Apply(Apply(s, a), b), c)
    requires Legal(Apply(Apply(Apply(s, a), b), c), d)
    ensures LegalRun(s, [a, b, c, d]) && Run(s, [a, b, c, d]) == Apply(Apply(Apply(Apply(s, a), b), c), d)
  {
    hide Legal, Apply;
    var all := [a, b, c, d];
    assert all[..3] == [a, b, c] && all[..2] == [a, b] && all[..1] == [a] && all[..0] == [];
    assert [a, b, c][..2] == [a, b] && [a, b][..1] == [a] && [a][..0] == [];
    assert Run(s, [a]) == Apply(s, a);
    assert Run(s, [a, b]) == Apply(Apply(s, a), b);
    assert Run(s, [a, b, c]) == Apply(Apply(Apply(s, a), b), c);
  }

  /** Over any run, a link follows the previous one to its account, unless spent, by two minutes at least. */
  lemma LinksAreSpaced(s: State, actions: seq<Action>, i: nat)
    requires Fresh(s) && LegalRun(s, actions)
    requires i < |Run(s, actions).history| && Run(s, actions).history[i].Issued?
    requires Run(s, actions).history[i].account in Run(s, actions).accounts
    ensures var t := Run(s, actions);
            var before := Latest(t.history[..i], t.history[i].account, t.accounts[t.history[i].account].mailbox);
            before.Some? && before.value.Issued? ==> before.value.at + RESEND_WINDOW <= t.history[i].at
  {
    hide AllExplained, TokensDistinct, LegalRun, Run, Latest;
    FreshIsInv(s);
    RunKeepsInv(s, actions);
    var t := Run(s, actions);
    assert SpacedAt(t.history, i, t.accounts[t.history[i].account].mailbox);
  }

  // ---------- The two handlers ----------

  /** The account rows and open claims, with the requests' times and the links issued and spent so far. */
  class Accounts {
    var accounts: map<nat, Account>
    var claims: map<nat, Claim>
    ghost var clock: int
    ghost var history: seq<Event>

    ghost function Now(): State reads this { State(accounts, clock, history, claims) }

    constructor (initial: map<nat, Account>, start: int)
      ensures Now() == State(initial, start, [], map[])
    {
      accounts, clock, history, claims := initial, start, [], map[];
    }

    /** The account a link was issued to, if the request was due one. */
    method ForgotPassword(mailbox: string, token: nat, now: int) returns (to: Option<nat>)
      modifies this
      ensures Now() == Forgot(old(Now()), mailbox, token, now)
      ensures to.Some? <==> exists k :: Issues(old(Now()), mailbox, now, k)
      ensures to.Some? ==>
                && to.value in old(accounts) && Takes(old(accounts), mailbox, to.value)
                && old(accounts)[to.value].verified
                && (old(accounts)[to.value].sentAt.Some? ==> old(accounts)[to.value].sentAt.value + 120 <= now)
                && accounts == old(accounts)[to.value := old(accounts)[to.value].(
                               hash := Some(token), expiresAt := Some(now + 3600), sentAt := Some(now))]
      ensures to.None? ==> accounts == old(accounts)
      ensures to.None? ==> forall k :: k in accounts && Takes(accounts, mailbox, k) ==>
                !accounts[k].verified || (accounts[k].sentAt.Some? && accounts[k].sentAt.value + 120 > now)
    {
      ghost var before := Now();
      forall k ensures IsCandidate(accounts, mailbox, k) <==> Takes(accounts, mailbox, k) {
        CandidateIff(accounts, mailbox, k);
      }
      hide IsCandidate, Takes;
      clock := now;
      if k :| k in accounts && IsCandidate(accounts, mailbox, k) && Due(accounts[k], now) {
        assert Issues(before, mailbox, now, k);
        ForgotIs(before, mailbox, token, now, k);
        accounts := accounts[k := accounts[k].(hash := Some(token), expiresAt := Some(now + TTL), sentAt := Some(now))];
        history := history + [Issued(k, token, now)];
        return Some(k);
      }
      return None;
    }

    /** The account whose link the request may spend. */
    method CheckToken(request: nat, token: nat, password: string, confirm: string, now: int) returns (of: Option<nat>)
      modifies this
      ensures Now() == Claimed(old(Now()), request, token, password, password == confirm, now)
      ensures of.Some? <==>
                (|password| >= 8 && password == confirm
                 && exists k :: k in accounts && accounts[k].hash == Some(token)
                                && accounts[k].expiresAt.Some? && now < accounts[k].expiresAt.value)
      ensures of.Some? ==>
                && of.value in accounts && accounts[of.value].hash == Some(token)
                && accounts[of.value].expiresAt.Some? && now < accounts[of.value].expiresAt.value
                && (forall j | j in accounts && accounts[j].hash == Some(token)
                               && accounts[j].expiresAt.Some? && now < accounts[j].expiresAt.value :: j <= of.value)
                && claims == old(claims)[request := Claim(accounts[of.value].mailbox, token, password)]
      ensures accounts == old(accounts) && (of.None? ==> claims == old(claims))
    {
      ghost var before := Now();
      clock := now;
      if |password| < MIN_PASSWORD || password != confirm {
        return None;
      }
      SomeIsUnlocked(before, token, now);
      if k :| k in accounts && Unlocks(accounts[k], token, now)
              && forall j :: j in accounts && Unlocks(accounts[j], token, now) ==> j <= k {
        assert IsUnlocked(before, token, now, k);
        ClaimIs(before, request, token, password, now, k);
        claims := claims[request := Claim(accounts[k].mailbox, token, password)];
        return Some(k);
      }
      return None;
    }

    /** Every account of the claimed mailbox takes the password and loses its link, however old the check is. */
    method SetPassword(request: nat, now: int)
      requires request in claims
      modifies this
      ensures Now() == Settled(old(Now()), request, now)
      ensures accounts.Keys == old(accounts).Keys
      ensures forall k :: k in accounts ==>
                accounts[k] == if old(accounts)[k].mailbox == old(claims)[request].mailbox
                               then old(accounts)[k].(password := Some(old(claims)[request].password), hash := None,
                                                      expiresAt := None, sentAt := None)
                               else old(accounts)[k]
    {
      var c := claims[request];
      clock := now;
      accounts := ClearAll(accounts, c.mailbox, c.password);
      history := history + [Spent(c.mailbox, c.token, now)];
      claims := claims - {request};
    }
  }
}
