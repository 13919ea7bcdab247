/** Email-verification tokens: requesting one invalidates all earlier ones; verifying marks the token,
    flags the user and appends the event in one transaction. Tokens are known by their hash. */
module EmailVerification {

  type UserId = nat
  type Hash = nat

  datatype Token = Token(user: UserId, email: string, used: bool, expiresAt: int)

  /** The EMAIL_VERIFIED fact, with the token that caused it (the real payload leaves the token out). */
  datatype Verified = Verified(user: UserId, email: string, token: Hash)

  datatype State = State(tokens: map<Hash, Token>, verified: set<UserId>, events: seq<Verified>)

  datatype Reply = Done(email: string) | Invalid | Expired

  const TOKEN_TTL_MS := 24 * 60 * 60 * 1000

  // ------------------------------------------------------------------ on values

  function Use(t: Token): Token { t.(used := true) }

  function Invalidated(tokens: map<Hash, Token>, user: UserId): map<Hash, Token> {
    map h | h in tokens :: if tokens[h].user == user then Use(tokens[h]) else tokens[h]
  }

  /** Hashes are unique in the table: a colliding insert is rejected, after the invalidation. */
  function Requested(s: State, user: UserId, email: string, hash: Hash, now: int): State {
    var tokens := Invalidated(s.tokens, user);
    s.(tokens := if hash in tokens then tokens else tokens[hash := Token(user, email, false, now + TOKEN_TTL_MS)])
  }

  predicate Usable(s: State, hash: Hash, now: int) {
    hash in s.tokens && !s.tokens[hash].used && now <= s.tokens[hash].expiresAt
  }

  function Confirmed(s: State, hash: Hash, now: int): State {
    if Usable(s, hash, now) then
      var t := s.tokens[hash];
      State(s.tokens[hash := Use(t)], s.verified + {t.user}, s.events + [Verified(t.user, t.email, hash)])
    else s
  }

  // ------------------------------------------------------------------ in place

  class VerificationService {
    var tokens: map<Hash, Token>
    var verified: set<UserId>
    var events: seq<Verified>
    var mails: seq<(string, Hash)>
    var evicted: seq<UserId>

    constructor ()
      ensures Current() == State(map[], {}, []) && mails == [] && evicted == []
    {
      tokens, verified, events, mails, evicted := map[], {}, [], [], [];
    }

    ghost function Current(): State
      reads this
    {
      State(tokens, verified, events)
    }

    method RequestVerification(user: UserId, email: string, hash: Hash, now: int) returns (created: bool)
      modifies this
      ensures Current() == Requested(old(Current()), user, email, hash, now)
      ensures created <==> hash !in old(tokens)
      ensures mails == if created then old(mails) + [(email, hash)] else old(mails)
      ensures evicted == old(evicted)
    {
      tokens := Invalidated(tokens, user);
      if hash in tokens { return false; }
      tokens := tokens[hash := Token(user, email, false, now + TOKEN_TTL_MS)];
      mails := mails + [(email, hash)];
      return true;
    }

    method VerifyEmail(hash: Hash, now: int) returns (reply: Reply)
      modifies this
      ensures Current() == Confirmed(old(Current()), hash, now)
      ensures reply.Done? <==> Usable(old(Current()), hash, now)
      ensures reply.Done? ==> reply.email == old(tokens)[hash].email && evicted == old(evicted) + [old(tokens)[hash].user]
      ensures reply.Expired? <==> hash in old(tokens) && !old(tokens)[hash].used && old(tokens)[hash].expiresAt < now
      ensures !reply.Done? ==> evicted == old(evicted)
      ensures mails == old(mails)
    {
      if hash !in tokens || tokens[hash].used { return Invalid; }
      var token := tokens[hash];
      if token.expiresAt < now { return Expired; }
      tokens := tokens[hash := Use(token)];
      verified := verified + {token.user};
      events := events + [Verified(token.user, token.email, hash)];
      evicted := evicted + [token.user];
      return Done(token.email);
    }
  }

  // ------------------------------------------------------------------ runs

  datatype Action = Request(user: UserId, email: string, hash: Hash) | Confirm(hash: Hash)

  datatype Timed = At(now: int, action: Action)

  function Step(s: State, t: Timed): State {
    match t.action
    case Request(user, email, hash) => Requested(s, user, email, hash, t.now)
    case Confirm(hash) => Confirmed(s, hash, t.now)
  }

  function Exec(s: State, run: seq<Timed>): State
    decreases |run|
  {
    if run == [] then s else Exec(Step(s, run[0]), run[1..])
  }

  const EMPTY := State(map[], {}, [])

  predicate Live(s: State, hash: Hash) {
    hash in s.tokens && !s.tokens[hash].used
  }

  ghost predicate OneLive(s: State) {
    forall g, h :: Live(s, g) && Live(s, h) && s.tokens[g].user == s.tokens[h].user ==> g == h
  }

  /** The event's token is spent, and is its user's and email's. */
  predicate Backed(tokens: map<Hash, Token>, e: Verified) {
    e.token in tokens && tokens[e.token].used && tokens[e.token].user == e.user && tokens[e.token].email == e.email
  }

  ghost predicate EventsBacked(s: State) {
    forall i :: 0 <= i < |s.events| ==> Backed(s.tokens, s.events[i])
  }

  ghost predicate OneEventPerToken(s: State) {
    forall i, j :: 0 <= i < j < |s.events| ==> s.events[i].token != s.events[j].token
  }

  ghost predicate FlagsAreEvents(s: State) {
    forall u :: u in s.verified <==> exists i :: 0 <= i < |s.events| && s.events[i].user == u
  }

  ghost predicate Inv(s: State) {
    OneLive(s) && EventsBacked(s) && OneEventPerToken(s) && FlagsAreEvents(s)
  }

  lemma RequestKeepsInv(s: State, user: UserId, email: string, hash: Hash, now: int)
    requires Inv(s)
    ensures Inv(Requested(s, user, email, hash, now))
  {
    var s' := Requested(s, user, email, hash, now);
    assert forall h :: Live(s', h) && s'.tokens[h].user == user ==> h == hash;
    assert forall h :: Live(s', h) && s'.tokens[h].user != user ==> Live(s, h);
    assert forall i :: 0 <= i < |s.events| ==> Backed(s.tokens, s.events[i]);
  }

  lemma ConfirmKeepsTokens(s: State, hash: Hash, now: int)
    requires OneLive(s) && EventsBacked(s) && OneEventPerToken(s)
    ensures var s' := Confirmed(s, hash, now); OneLive(s') && EventsBacked(s') && OneEventPerToken(s')
  {
    var s' := Confirmed(s, hash, now);
    assert forall h :: Live(s', h) ==> Live(s, h);
    assert forall i :: 0 <= i < |s.events| ==> Backed(s.tokens, s.events[i]);
  }

  lemma ConfirmKeepsFlags(s: State, hash: Hash, now: int)
    requires FlagsAreEvents(s)
    ensures FlagsAreEvents(Confirmed(s, hash, now))
  {
    var s' := Confirmed(s, hash, now);
    if s'.events != s.events {
      assert s'.events[|s.events|].user == s.tokens[hash].user;
      assert forall i :: 0 <= i < |s.events| ==> s'.events[i] == s.events[i];
      forall u | u in s.verified
        ensures exists i :: 0 <= i < |s'.events| && s'.events[i].user == u
      {
        var i :| 0 <= i < |s.events| && s.events[i].user == u;
        assert s'.events[i].user == u;
      }
    }
  }

  lemma StepKeepsInv(s: State, t: Timed)
    requires Inv(s)
    ensures Inv(Step(s, t))
  {
    match t.action
    case Request(user, email, hash) => RequestKeepsInv(s, user, email, hash, t.now);
    case Confirm(hash) =>
      ConfirmKeepsTokens(s, hash, t.now);
      ConfirmKeepsFlags(s, hash, t.now);
  }

  lemma {:induction false} RunKeepsInv(s: State, run: seq<Timed>)
    requires Inv(s)
    ensures Inv(Exec(s, run))
    decreases |run|
  {
    if run == [] {
    } else {
      StepKeepsInv(s, run[0]);
      RunKeepsInv(Step(s, run[0]), run[1..]);
    }
  }

  /** Over any run: at most one unused token per user, at most one event per token, every event's token is
      spent, and exactly the users with an event are flagged as verified. */
  lemma RunGuarantees(run: seq<Timed>)
    ensures Inv(Exec(EMPTY, run))
  {
    RunKeepsInv(EMPTY, run);
  }

  /** The action neither asks for another token for the user nor confirms this one. */
  predicate Spares(a: Action, user: UserId, hash: Hash) {
    match a
    case Request(u, _, _) => u != user
    case Confirm(h) => h != hash
  }

  lemma {:induction false} SparedTokenStays(s: State, run: seq<Timed>, hash: Hash)
    requires hash in s.tokens && forall i :: 0 <= i < |run| ==> Spares(run[i].action, s.tokens[hash].user, hash)
    ensures hash in Exec(s, run).tokens && Exec(s, run).tokens[hash] == s.tokens[hash]
    decreases |run|
  {
    if run == [] {
    } else {
      assert forall i :: 0 <= i < |run| - 1 ==> run[1..][i] == run[i + 1];
      SparedTokenStays(Step(s, run[0]), run[1..], hash);
    }
  }

  /** A new token, if no newer one is asked for and it has not been used, verifies its user's email for exactly a
      day, whatever other users do. */
  lemma FreshTokenVerifiesIff(s: State, user: UserId, email: string, hash: Hash, now: int, run: seq<Timed>, later: int)
    requires hash !in s.tokens && forall i :: 0 <= i < |run| ==> Spares(run[i].action, user, hash)
    ensures var end := Exec(Requested(s, user, email, hash, now), run);
            && (Confirmed(end, hash, later).events == end.events + [Verified(user, email, hash)] <==> later <= now + 24 * 60 * 60 * 1000)
            && (user in Confirmed(end, hash, later).verified <==> user in end.verified || later <= now + 24 * 60 * 60 * 1000)
  {
    SparedTokenStays(Requested(s, user, email, hash, now), run, hash);
  }

  /** A spent token stays spent. */
  lemma {:induction false} SpentForGood(s: State, run: seq<Timed>, hash: Hash)
    requires hash in s.tokens && s.tokens[hash].used
    ensures hash in Exec(s, run).tokens && Exec(s, run).tokens[hash].used
    decreases |run|
  {
    if run == [] {
    } else {
      SpentForGood(Step(s, run[0]), run[1..], hash);
    }
  }

  /** After a newer request, a user's older tokens never verify, whatever happens in between. */
  lemma OlderNeverVerifies(s: State, user: UserId, email: string, hash: Hash, now: int, run: seq<Timed>, older: Hash, later: int)
    requires older in s.tokens && s.tokens[older].user == user
    ensures !Usable(Exec(Requested(s, user, email, hash, now), run), older, later)
  {
    SpentForGood(Requested(s, user, email, hash, now), run, older);
  }

  /** A verification that succeeds cannot succeed again. */
  lemma VerifiesOnce(s: State, hash: Hash, now: int, run: seq<Timed>, later: int)
    requires Usable(s, hash, now)
    ensures !Usable(Exec(Confirmed(s, hash, now), run), hash, later)
  {
    SpentForGood(Confirmed(s, hash, now), run, hash);
  }

  /** The event, the spent mark and the flag come together: a confirmation either makes all three
      changes for the token's own user and email, or none. */
  lemma ChangeTogether(s: State, hash: Hash, now: int)
    requires Inv(s)
    ensures var s' := Confirmed(s, hash, now);
            var spent := hash in s.tokens && !s.tokens[hash].used && s'.tokens[hash].used;
            && (spent <==> |s'.events| == |s.events| + 1)
            && (spent <==> s' != s)
            && (spent ==> s'.events[|s.events|] == Verified(s.tokens[hash].user, s.tokens[hash].email, hash)
                          && s.tokens[hash].user in s'.verified)
  {
  }
}
