/** The string keys and payloads that the components put in one Redis. */
module Keys {
  import opened Wrappers
  import opened SessionStore
  import Emails

  predicate ColonFree(s: string) {
    ':' !in s
  }

  function Join(head: string, tail: string): string {
    head + ":" + tail
  }

  /** s.split(":", 1), when that gives two parts. */
  function SplitFirst(s: string): Option<(string, string)> {
    if s == [] then None
    else if s[0] == ':' then Some(("", s[1..]))
    else
      match SplitFirst(s[1..])
      case None => None
      case Some((head, tail)) => Some(([s[0]] + head, tail))
  }

  lemma {:induction false} SplitJoin(head: string, tail: string)
    requires ColonFree(head)
    ensures SplitFirst(Join(head, tail)) == Some((head, tail))
  {
    if head == [] {
      assert Join(head, tail)[1..] == tail;
    } else {
      assert Join(head, tail)[1..] == Join(head[1..], tail);
      SplitJoin(head[1..], tail);
      assert head == [head[0]] + head[1..];
    }
  }

  lemma {:induction false} SplitHeadIsColonFree(s: string)
    ensures SplitFirst(s).None? <==> ColonFree(s)
    ensures SplitFirst(s).Some? ==>
        ColonFree(SplitFirst(s).value.0) && s == Join(SplitFirst(s).value.0, SplitFirst(s).value.1)
  {
    if s != [] && s[0] != ':' {
      SplitHeadIsColonFree(s[1..]);
      assert s == [s[0]] + s[1..];
    }
  }

  /** A payload "user:session" is recovered exactly by the split at the first colon
      if, and only if, the user has no colon. */
  lemma PayloadRoundTripIff(user: string, session: string)
    ensures SplitFirst(Join(user, session)) == Some((user, session)) <==> ColonFree(user)
  {
    if ColonFree(user) {
      SplitJoin(user, session);
    } else {
      SplitHeadIsColonFree(Join(user, session));
    }
  }

  lemma JoinIsInjective(head: string, tail: string, head': string, tail': string)
    requires ColonFree(head) && ColonFree(head') && Join(head, tail) == Join(head', tail')
    ensures head == head' && tail == tail'
  {
    SplitJoin(head, tail);
    SplitJoin(head', tail');
  }

  // ------------------------------------------------------------------------
  // Rate-limit keys
  // ------------------------------------------------------------------------

  datatype Dimension = Ip | Email

  function DimensionName(d: Dimension): string {
    match d
    case Ip => "ip"
    case Email => "email"
  }

  /** What a dimension counts by: the IP as it is, or the normalised address. */
  function SubjectKey(d: Dimension, subject: string): string {
    match d
    case Ip => subject
    case Email => Emails.RateKey(subject)
  }

  /** The key that check_ip and check_email pass to check. */
  function RateKeyOf(operation: string, d: Dimension, subject: string): string {
    Join(operation, Join(DimensionName(d), SubjectKey(d, subject)))
  }

  /** Different operations, dimensions, IPs or addresses never share a counter, and
      spellings of one address always do. */
  lemma RateKeysAgreeIff(op: string, d: Dimension, subject: string, op': string, d': Dimension, subject': string)
    requires ColonFree(op) && ColonFree(op')
    ensures
      RateKeyOf(op, d, subject) == RateKeyOf(op', d', subject') <==>
      op == op' && d == d'
          && (if d == Ip then subject == subject' else Emails.Normalise(subject) == Emails.Normalise(subject'))
  {
    if RateKeyOf(op, d, subject) == RateKeyOf(op', d', subject') {
      JoinIsInjective(op, Join(DimensionName(d), SubjectKey(d, subject)), op',
                      Join(DimensionName(d'), SubjectKey(d', subject')));
      JoinIsInjective(DimensionName(d), SubjectKey(d, subject), DimensionName(d'), SubjectKey(d', subject'));
      assert d == d' by { assert |DimensionName(Ip)| == 2 && |DimensionName(Email)| == 5; }
    }
    Emails.OneCounterPerEmail(subject, subject');
  }

  // ------------------------------------------------------------------------
  // All keys
  // ------------------------------------------------------------------------

  datatype Key =
    | AccessKey(jti: Jti)
    | RefreshKey(token: RefreshToken)
    | SessionKey(session: SessionId)
    | UserSessionsKey(user: UserId)
    | RateLimitKey(key: string)
    | IdempotencyKey(operation: string, value: string)

  function Prefix(k: Key): string {
    match k
    case AccessKey(_) => "access"
    case RefreshKey(_) => "refresh"
    case SessionKey(_) => "session"
    case UserSessionsKey(_) => "sessions"
    case RateLimitKey(_) => "rl"
    case IdempotencyKey(_, _) => "idempotency"
  }

  function Rest(k: Key): string {
    match k
    case AccessKey(j) => j.text
    case RefreshKey(t) => t.text
    case SessionKey(s) => s.text
    case UserSessionsKey(u) => u.text
    case RateLimitKey(key) => key
    case IdempotencyKey(op, value) => Join(op, value)
  }

  function Text(k: Key): string {
    Join(Prefix(k), Rest(k))
  }

  /** The operations that take an idempotency key have GraphQL names. */
  predicate Proper(k: Key) {
    k.IdempotencyKey? ==> ColonFree(k.operation)
  }

  lemma PrefixesDiffer(a: Key, b: Key)
    ensures ColonFree(Prefix(a))
    ensures
      Prefix(a) == Prefix(b) ==>
        && (a.AccessKey? <==> b.AccessKey?) && (a.RefreshKey? <==> b.RefreshKey?)
        && (a.SessionKey? <==> b.SessionKey?) && (a.UserSessionsKey? <==> b.UserSessionsKey?)
        && (a.RateLimitKey? <==> b.RateLimitKey?) && (a.IdempotencyKey? <==> b.IdempotencyKey?)
  {
    if Prefix(a) == Prefix(b) {
      assert |Prefix(a)| == |Prefix(b)| && Prefix(a)[0] == Prefix(b)[0] && Prefix(a)[1] == Prefix(b)[1];
    }
  }

  /** The key builders are injective, and the ranges of any two of them are
      disjoint. */
  lemma KeysAreInjective(a: Key, b: Key)
    requires Proper(a) && Proper(b)
    ensures Text(a) == Text(b) <==> a == b
  {
    if Text(a) == Text(b) {
      PrefixesDiffer(a, b);
      PrefixesDiffer(b, a);
      JoinIsInjective(Prefix(a), Rest(a), Prefix(b), Rest(b));
      if a.IdempotencyKey? { JoinIsInjective(a.operation, a.value, b.operation, b.value); }
    }
  }

  lemma JoinIs(head: string, tail: string, text: string)
    requires text == head + ":"
    ensures Join(head, tail) == text + tail
  {
  }

  /** The keys as they are written. */
  lemma SessionKeyTexts(jti: Jti, token: RefreshToken, s: SessionId, user: UserId)
    ensures Text(AccessKey(jti)) == "access:" + jti.text
    ensures Text(RefreshKey(token)) == "refresh:" + token.text
    ensures Text(SessionKey(s)) == "session:" + s.text
    ensures Text(UserSessionsKey(user)) == "sessions:" + user.text
  {
    JoinIs("access", jti.text, "access:");
    JoinIs("refresh", token.text, "refresh:");
    JoinIs("session", s.text, "session:");
    JoinIs("sessions", user.text, "sessions:");
    hide Join;
  }

  lemma OtherKeyTexts(operation: string, value: string, ip: string, email: string)
    ensures Text(IdempotencyKey(operation, value)) == "idempotency:" + (operation + (":" + value))
    ensures Text(RateLimitKey(RateKeyOf(operation, Ip, ip))) == "rl:" + (operation + (":ip:" + ip))
    ensures
      Text(RateLimitKey(RateKeyOf(operation, Email, email))) ==
      "rl:" + (operation + (":email:" + Emails.Normalise(email)))
  {
    JoinIs("idempotency", Join(operation, value), "idempotency:");
    JoinIs("rl", RateKeyOf(operation, Ip, ip), "rl:");
    JoinIs("rl", RateKeyOf(operation, Email, email), "rl:");
    OperationText(operation, value);
    DimensionText(operation, "ip", ip, ":ip:");
    DimensionText(operation, "email", Emails.Normalise(email), ":email:");
    Emails.OneCounterPerEmail(email, email);
    hide Join;
    hide Emails.Normalise;
    hide Emails.RateKey;
  }

  lemma OperationText(operation: string, value: string)
    ensures Join(operation, value) == operation + (":" + value)
  {
  }

  lemma DimensionText(operation: string, dimension: string, subject: string, text: string)
    requires text == ":" + dimension + ":"
    ensures Join(operation, Join(dimension, subject)) == operation + (text + subject)
  {
    assert Join(dimension, subject) == dimension + (":" + subject);
    assert ":" + Join(dimension, subject) == text + subject;
    OperationText(operation, Join(dimension, subject));
  }
}
