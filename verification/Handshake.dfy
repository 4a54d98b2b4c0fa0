/** The connection handshake of Network/NetworkClient.cpp and
    Network/NetworkSession.cpp: what one message or event does to an endpoint,
    and the two endpoints with everything that is on its way between them. */
module Handshake {
  import opened D = DataHandler
  import opened Pipeline
  import R = Runs

  // ----- messages -----

  datatype Request = Request(id: string, registeredKey: string)

  datatype Response = Response(id: string, subId: string, keys: Keys, condition: bool)

  /** A key and an iv made by `Encryptor::create_key`. */
  datatype Secret = Secret(key: string, iv: string)

  /** What `data()` of a string shows to C: the text before the first zero. */
  function CString(text: string): (c: string)
    ensures c <= text && '\0' !in c
    ensures c < text ==> text[|c|] == '\0'
    ensures '\0' !in text ==> c == text
  {
    if text == [] || text[0] == '\0' then [] else [text[0]] + CString(text[1..])
  }

  predicate IsText(text: string) {
    '\0' !in text
  }

  /** Base64 text of random bytes. */
  predicate IsSecret(secret: Secret) {
    IsText(secret.key) && IsText(secret.iv) && secret.key != "" && secret.iv != ""
  }

  // ----- the session -----

  /** `outbox` holds the compress jobs, `framed` the sending jobs. */
  datatype Session = Session(
    condition: Condition, id: string, subId: string, registeredKey: string, keys: Keys,
    outbox: seq<Response>, framed: seq<Response>)

  function Respond(s: Session, condition: bool, secret: Secret): Session {
    var keys := if s.keys.encrypt then Keys(true, secret.key, secret.iv) else s.keys;
    s.(keys := keys, outbox := s.outbox + [Response(s.id, s.subId, keys, condition)])
  }

  /** The condition becomes Expired; `disconnected` sends a refusal. */
  function ExpireSession(s: Session, secret: Secret): Session {
    if s.condition == Expired then s else Respond(s.(condition := Expired), false, secret)
  }

  predicate Passes(request: Request, registeredKey: string) {
    CString(request.registeredKey) == registeredKey
  }

  function TakeRequest(s: Session, request: Request, first: Secret, second: Secret): Session {
    if s.condition != Waiting then s
    else
      var named := s.(id := CString(request.id));
      if Passes(request, s.registeredKey) then Respond(named.(condition := Confirmed), true, first)
      else Respond(ExpireSession(named, first), false, second)
  }

  /** A binary, text or file message. */
  function SessionData(s: Session, secret: Secret): Session {
    if s.condition != Confirmed then ExpireSession(s, secret) else s
  }

  /** The pool is destroyed with the jobs in it. */
  function StopSession(s: Session, secret: Secret): Session {
    ExpireSession(s, secret).(outbox := [], framed := [])
  }

  // ----- the client -----

  datatype Client = Client(
    condition: Condition, id: string, subId: string, serverId: string, registeredKey: string, keys: Keys,
    outbox: seq<Request>, framed: seq<Request>)

  function WithoutKeys(c: Client): Client {
    c.(keys := Keys(c.keys.encrypt, "", ""))
  }

  /** `disconnected` forgets key and iv. */
  function ExpireClient(c: Client): Client {
    if c.condition == Expired then c else WithoutKeys(c.(condition := Expired))
  }

  function TakeResponse(c: Client, r: Response): Client {
    if c.condition != Waiting then c
    else
      var told := c.(serverId := r.id, subId := CString(r.subId),
                     keys := Keys(r.keys.encrypt, CString(r.keys.key), CString(r.keys.iv)));
      if r.condition then told.(condition := Confirmed) else WithoutKeys(ExpireClient(told))
  }

  /** A binary, text or file message; an expired client looks at none. */
  function ClientData(c: Client): Client {
    if c.condition == Expired || c.condition == Confirmed then c else ExpireClient(c)
  }

  /** `start`: the keys of an earlier connection are still there. */
  function Connect(c: Client): Client {
    c.(condition := Waiting, outbox := [Request(c.id, c.registeredKey)], framed := [])
  }

  // ----- both, and the line between them -----

  /** `requested` is the key in the request of the current connection. */
  datatype System = System(
    client: Client, session: Session, toSession: seq<Request>, toClient: seq<Response>, requested: string)

  datatype Step =
    | ClientCompresses(i: nat)
    | ClientSends(i: nat)
    | ClientTakes(i: nat)
    | ClientHearsData
    | ClientExpires             // a read fails, or `stop`
    | ClientCloses              // the pool and the socket go
    | ClientRegisters(key: string)
    | SessionCompresses(i: nat)
    | SessionSends(i: nat)
    | SessionTakes(i: nat, first: Secret, second: Secret)
    | SessionHearsData(secret: Secret)
    | SessionExpires(secret: Secret)
    | SessionStops(secret: Secret)
    | RequestLost(i: nat)
    | ResponseLost(i: nat)
    // the server, whose key and mode may have been changed, answers with a new session
    | Reconnect(subId: string, serverKey: string, encrypt: bool)

  predicate Enabled(s: System, step: Step) {
    match step
    case ClientCompresses(i) => i < |s.client.outbox|
    case ClientSends(i) => i < |s.client.framed|
    case ClientTakes(i) => i < |s.toClient|
    case SessionCompresses(i) => i < |s.session.outbox|
    case SessionSends(i) => i < |s.session.framed|
    case SessionTakes(i, first, second) => i < |s.toSession| && IsSecret(first) && IsSecret(second)
    case SessionHearsData(secret) => IsSecret(secret)
    case SessionExpires(secret) => IsSecret(secret)
    case SessionStops(secret) => IsSecret(secret)
    case RequestLost(i) => i < |s.client.framed|
    case ResponseLost(i) => i < |s.session.framed|
    case Reconnect(subId, _, _) => IsText(subId)
    case ClientHearsData => true
    case ClientExpires => true
    case ClientCloses => true
    case ClientRegisters(_) => true
  }

  /** A compress job refuses to run once the condition is Expired. */
  function CompressAt<T>(condition: Condition, outbox: seq<T>, framed: seq<T>, i: nat): seq<T>
    requires i < |outbox|
  {
    if condition == Expired then framed else framed + [outbox[i]]
  }

  /** A message that was sent in clear is lost on a receiver that deciphers it. */
  function Do(s: System, step: Step): System {
    var c, p := s.client, s.session;
    if !Enabled(s, step) then s else
    match step
    case ClientCompresses(i) =>
      s.(client := c.(outbox := R.Omit(c.outbox, i), framed := CompressAt(c.condition, c.outbox, c.framed, i)))
    case ClientSends(i) => s.(client := c.(framed := R.Omit(c.framed, i)), toSession := s.toSession + [c.framed[i]])
    case ClientTakes(i) =>
      s.(client := if c.keys.Active() then c else TakeResponse(c, s.toClient[i]), toClient := R.Omit(s.toClient, i))
    case ClientHearsData => s.(client := ClientData(c))
    case ClientExpires => s.(client := ExpireClient(c))
    case ClientCloses => s.(client := ExpireClient(c).(outbox := [], framed := []))
    case ClientRegisters(key) => s.(client := c.(registeredKey := key))
    case SessionCompresses(i) =>
      s.(session := p.(outbox := R.Omit(p.outbox, i), framed := CompressAt(p.condition, p.outbox, p.framed, i)))
    case SessionSends(i) => s.(session := p.(framed := R.Omit(p.framed, i)), toClient := s.toClient + [p.framed[i]])
    case SessionTakes(i, first, second) =>
      s.(session := if p.keys.Active() then p else TakeRequest(p, s.toSession[i], first, second),
         toSession := R.Omit(s.toSession, i))
    case SessionHearsData(secret) => s.(session := SessionData(p, secret))
    case SessionExpires(secret) => s.(session := ExpireSession(p, secret))
    case SessionStops(secret) => s.(session := StopSession(p, secret))
    case RequestLost(i) => s.(client := c.(framed := R.Omit(c.framed, i)))
    case ResponseLost(i) => s.(session := p.(framed := R.Omit(p.framed, i)))
    case Reconnect(subId, serverKey, encrypt) => Fresh(Connect(c), serverKey, encrypt, subId)
  }

  function Fresh(c: Client, serverKey: string, encrypt: bool, subId: string): System {
    System(c, Session(Waiting, "unauthorized_client", subId, serverKey, Keys(encrypt, "", ""), [], []), [], [], c.registeredKey)
  }

  /** The first connection of a client, or one after any number of others. */
  predicate IsFresh(s: System) {
    && s == Fresh(Connect(s.client), s.session.registeredKey, s.session.keys.encrypt, s.session.subId)
    && IsText(s.session.subId)
  }

  predicate IsRun(s: System, steps: seq<Step>) {
    R.Valid(Enabled, Do, s, steps)
  }

  function After(s: System, steps: seq<Step>): System {
    R.After(Do, s, steps)
  }

  // ----- the invariant -----

  predicate Passed(s: System) {
    CString(s.requested) == s.session.registeredKey
  }

  /** Keys that a session gives away: of its mode, and not empty if it encrypts. */
  predicate Usable(keys: Keys, p: Session) {
    keys.encrypt == p.keys.encrypt && (keys.encrypt ==> keys.Active())
  }

  /** An answer that confirms was given to a request that passed, by this session. */
  predicate Honest(s: System, r: Response) {
    r.condition ==>
      && Passed(s) && r.id == CString(s.client.id) && r.subId == s.session.subId
      && (s.session.condition == Confirmed ==> r.keys == s.session.keys)
      && s.session.condition != Waiting && IsText(r.keys.key) && IsText(r.keys.iv)
      && Usable(r.keys, s.session)
  }

  predicate RequestsMatch(s: System) {
    var request := Request(s.client.id, s.requested);
    && (forall r :: r in s.client.outbox ==> r == request)
    && (forall r :: r in s.client.framed ==> r == request)
    && (forall r :: r in s.toSession ==> r == request)
  }

  predicate ResponsesMatch(s: System) {
    && (forall r :: r in s.session.outbox ==> Honest(s, r) && (r.condition || s.session.condition == Expired))
    && (forall r :: r in s.session.framed ==> Honest(s, r) && r.condition)
    && (forall r :: r in s.toClient ==> Honest(s, r) && r.condition)
  }

  predicate SessionSound(s: System) {
    var p := s.session;
    && IsText(p.subId) && IsText(p.keys.key) && IsText(p.keys.iv)
    && (p.condition == Waiting ==> p.keys.key == "" && p.keys.iv == "")
    && (p.condition == Confirmed ==> Passed(s) && p.id == CString(s.client.id))
  }

  predicate ClientSound(s: System) {
    s.client.condition == Confirmed ==>
      && Passed(s) && s.session.condition != Waiting
      && s.client.serverId == CString(s.client.id) && s.client.subId == s.session.subId
      && Usable(s.client.keys, s.session)
      && (s.session.condition == Confirmed ==> s.client.keys == s.session.keys)
  }

  predicate Inv(s: System) {
    RequestsMatch(s) && ResponsesMatch(s) && SessionSound(s) && ClientSound(s)
  }

  lemma ClientStepKeepsInv(s: System, step: Step)
    requires Inv(s) && Enabled(s, step)
    requires step.ClientCompresses? || step.ClientSends? || step.RequestLost? || step.ClientRegisters?
          || step.ClientHearsData? || step.ClientExpires? || step.ClientCloses?
    ensures Inv(Do(s, step))
  {
    var t := Do(s, step);
    assert t.session == s.session && t.toClient == s.toClient;
    if step.ClientCompresses? {
      assert s.client.outbox[step.i] in s.client.outbox;
    }
    if step.ClientSends? {
      assert s.client.framed[step.i] in s.client.framed;
    }
    assert forall r :: Honest(s, r) ==> Honest(t, r);
  }

  lemma SessionMoveKeepsInv(s: System, step: Step)
    requires Inv(s) && Enabled(s, step)
    requires step.SessionCompresses? || step.SessionSends? || step.ResponseLost?
    ensures Inv(Do(s, step))
  {
    var t := Do(s, step);
    assert forall r :: Honest(s, r) ==> Honest(t, r);
    if step.SessionCompresses? {
      assert s.session.outbox[step.i] in s.session.outbox;
    }
    if step.SessionSends? {
      assert s.session.framed[step.i] in s.session.framed;
    }
  }

  /** The session turns to Expired, with more refusals in its outbox. */
  lemma ExpiringKeepsInv(s: System, t: System)
    requires Inv(s) && t.client == s.client && t.toSession == s.toSession && t.toClient == s.toClient
    requires t.requested == s.requested && t.session.condition == Expired
    requires t.session.registeredKey == s.session.registeredKey && t.session.subId == s.session.subId
    requires t.session.keys.encrypt == s.session.keys.encrypt
    requires IsText(t.session.keys.key) && IsText(t.session.keys.iv)
    requires forall r :: r in t.session.outbox ==> r in s.session.outbox || !r.condition
    requires forall r :: r in t.session.framed ==> r in s.session.framed
    ensures Inv(t)
  {
  }

  lemma ExpireSessionKeepsInv(s: System, step: Step)
    requires Inv(s) && Enabled(s, step)
    requires step.SessionHearsData? || step.SessionExpires? || step.SessionStops?
    ensures Inv(Do(s, step))
  {
    var t := Do(s, step);
    if t.session != s.session {
      ExpiringKeepsInv(s, t);
    }
  }

  lemma RefusalKeepsInv(s: System, i: nat, first: Secret, second: Secret)
    requires Inv(s) && Enabled(s, SessionTakes(i, first, second))
    requires s.session.condition == Waiting && !Passes(s.toSession[i], s.session.registeredKey)
    ensures Inv(Do(s, SessionTakes(i, first, second)))
  {
    var middle, t := s.(toSession := R.Omit(s.toSession, i)), Do(s, SessionTakes(i, first, second));
    assert Inv(middle) by {
      assert forall r :: Honest(s, r) ==> Honest(middle, r);
    }
    ExpiringKeepsInv(middle, t);
  }

  lemma NoMembers<T>(s: seq<T>)
    ensures (forall x :: x !in s) ==> s == []
  {
    if s != [] {
      assert s[0] in s;
    }
  }

  /** Before its first answer a session has nothing on its way. */
  lemma WaitingIsSilent(s: System)
    requires Inv(s) && s.session.condition == Waiting
    ensures s.session.outbox == [] && s.session.framed == [] && s.toClient == []
  {
    NoMembers(s.session.outbox);
    NoMembers(s.session.framed);
    NoMembers(s.toClient);
  }

  lemma ConfirmingKeepsInv(s: System, i: nat, first: Secret, second: Secret)
    requires Inv(s) && Enabled(s, SessionTakes(i, first, second))
    requires s.session.condition == Waiting && Passes(s.toSession[i], s.session.registeredKey)
    ensures Inv(Do(s, SessionTakes(i, first, second)))
    ensures Do(s, SessionTakes(i, first, second)).session.condition == Confirmed
  {
    var t := Do(s, SessionTakes(i, first, second));
    WaitingIsSilent(s);
    assert s.toSession[i] in s.toSession;
    assert s.toSession[i] == Request(s.client.id, s.requested);
    assert t.session.outbox == [Response(t.session.id, t.session.subId, t.session.keys, true)];
    assert RequestsMatch(t);
  }

  lemma SessionTakesKeepsInv(s: System, i: nat, first: Secret, second: Secret)
    requires Inv(s) && Enabled(s, SessionTakes(i, first, second))
    ensures Inv(Do(s, SessionTakes(i, first, second)))
  {
    var t := Do(s, SessionTakes(i, first, second));
    if s.session.condition != Waiting {
      assert t == s.(toSession := R.Omit(s.toSession, i));
      assert forall r :: Honest(s, r) ==> Honest(t, r);
    } else if Passes(s.toSession[i], s.session.registeredKey) {
      ConfirmingKeepsInv(s, i, first, second);
    } else {
      RefusalKeepsInv(s, i, first, second);
    }
  }

  lemma ClientTakesKeepsInv(s: System, i: nat)
    requires Inv(s) && Enabled(s, ClientTakes(i))
    ensures Inv(Do(s, ClientTakes(i)))
  {
    var t := Do(s, ClientTakes(i));
    assert s.toClient[i] in s.toClient;
    assert forall r :: Honest(s, r) ==> Honest(t, r);
  }

  lemma StepKeepsInv(s: System, step: Step)
    requires Inv(s) && Enabled(s, step)
    ensures Inv(Do(s, step))
  {
    match step
    case ClientTakes(i) => ClientTakesKeepsInv(s, i);
    case SessionTakes(i, first, second) => SessionTakesKeepsInv(s, i, first, second);
    case Reconnect(_, _, _) =>
    case SessionHearsData(_) => ExpireSessionKeepsInv(s, step);
    case SessionExpires(_) => ExpireSessionKeepsInv(s, step);
    case SessionStops(_) => ExpireSessionKeepsInv(s, step);
    case SessionCompresses(_) => SessionMoveKeepsInv(s, step);
    case SessionSends(_) => SessionMoveKeepsInv(s, step);
    case ResponseLost(_) => SessionMoveKeepsInv(s, step);
    case _ => ClientStepKeepsInv(s, step);
  }

  lemma RunKeepsInv(s: System, steps: seq<Step>)
    requires IsFresh(s) && IsRun(s, steps)
    ensures Inv(After(s, steps))
  {
    var inv := (x: System) => Inv(x);
    forall x, y | inv(x) && Enabled(x, y) ensures inv(Do(x, y)) {
      StepKeepsInv(x, y);
    }
    R.Invariant(Enabled, Do, inv, s, steps);
  }

  // ----- what the handshake guarantees -----

  /** In every state of every run, reconnects included: a confirmed client was
      let in by this session, which tested the registered key; the two know the
      same sub id; and while both are confirmed they encrypt alike, so that each
      undoes what the other does. */
  lemma HandshakeAgrees(s: System, steps: seq<Step>)
    requires IsFresh(s) && IsRun(s, steps)
    ensures var t := After(s, steps);
            && (t.client.condition == Confirmed ==>
                  CString(t.requested) == t.session.registeredKey && t.client.subId == t.session.subId)
            && (t.client.condition == Confirmed && t.session.condition == Confirmed ==>
                  && t.client.keys == t.session.keys
                  && Agree(t.client.keys, t.session.keys) && Agree(t.session.keys, t.client.keys))
  {
    RunKeepsInv(s, steps);
  }

  /** What a client takes for the name of its server is its own. */
  lemma ServerIdIsClientId(s: System, steps: seq<Step>)
    requires IsFresh(s) && IsRun(s, steps)
    ensures var c := After(s, steps).client;
            c.condition == Confirmed ==> c.serverId == CString(c.id)
  {
    RunKeepsInv(s, steps);
  }

  /** No refusal ever gets past the compress job, in any run: a client is never
      told that the server refused it. */
  lemma RefusalsStayInside(s: System, steps: seq<Step>)
    requires IsFresh(s) && IsRun(s, steps)
    ensures var t := After(s, steps);
            && (forall r :: r in t.session.framed || r in t.toClient ==> r.condition)
            && (!Passed(t) ==> t.session.framed == [] && t.toClient == [])
  {
    RunKeepsInv(s, steps);
    var t := After(s, steps);
    if !Passed(t) {
      NoMembers(t.session.framed);
      NoMembers(t.toClient);
    }
  }

  /** Every answer on its way was on its way before, and none of them twice. */
  predicate NothingNew(s: System, t: System) {
    && t.session.condition == Expired
    && multiset(t.session.framed) + multiset(t.toClient) <= multiset(s.session.framed) + multiset(s.toClient)
  }

  predicate SameConnection(s: System, step: Step) {
    Enabled(s, step) && !step.Reconnect?
  }

  predicate IsConnectionRun(s: System, steps: seq<Step>) {
    R.Valid(SameConnection, Do, s, steps)
  }

  lemma StepKeepsQuiet(s: System, t: System, step: Step)
    requires NothingNew(s, t) && SameConnection(t, step)
    ensures NothingNew(s, Do(t, step))
  {
    match step
    case SessionSends(i) => R.OmitOne(t.session.framed, i);
    case ResponseLost(i) => R.OmitOne(t.session.framed, i);
    case ClientTakes(i) => R.OmitOne(t.toClient, i);
    case _ =>
  }

  lemma {:induction false} QuietFrom(s: System, t: System, steps: seq<Step>)
    requires NothingNew(s, t) && IsConnectionRun(t, steps)
    ensures NothingNew(s, After(t, steps))
    decreases |steps|
  {
    if steps != [] {
      StepKeepsQuiet(s, t, steps[0]);
      QuietFrom(s, Do(t, steps[0]), steps[1..]);
    }
  }

  /** An expired session puts nothing more on the wire than what was framed, each
      frame once. */
  lemma ExpiredSessionIsQuiet(s: System, steps: seq<Step>)
    requires s.session.condition == Expired && IsConnectionRun(s, steps)
    ensures NothingNew(s, After(s, steps))
  {
    QuietFrom(s, s, steps);
  }

  ghost predicate StaysSilent(s: System) {
    forall steps :: IsConnectionRun(s, steps) ==> multiset(After(s, steps).toClient) <= multiset(s.toClient)
  }

  /** It puts nothing on the wire at all exactly if nothing was framed. */
  lemma SilentExactly(s: System)
    requires s.session.condition == Expired
    ensures s.session.framed == [] <==> StaysSilent(s)
  {
    if s.session.framed == [] {
      forall steps | IsConnectionRun(s, steps) ensures multiset(After(s, steps).toClient) <= multiset(s.toClient) {
        ExpiredSessionIsQuiet(s, steps);
        var t := After(s, steps);
        PartOf(multiset(t.session.framed), multiset(t.toClient), multiset(s.toClient));
      }
    } else {
      var t := Do(s, SessionSends(0));
      R.First(SameConnection, Do, s, SessionSends(0), []);
      var steps := [SessionSends(0)] + [];
      assert IsConnectionRun(s, steps) && After(s, steps) == t;
      PartIsNoLarger(multiset(t.toClient), multiset(s.toClient));
      assert |t.toClient| == |s.toClient| + 1;
    }
  }

  lemma PartOf<T>(a: multiset<T>, b: multiset<T>, c: multiset<T>)
    requires a + b <= c
    ensures b <= c
  {
  }

  lemma PartIsNoLarger<T>(a: multiset<T>, b: multiset<T>)
    ensures a <= b ==> |a| <= |b|
  {
    if a <= b {
      assert b == a + (b - a);
    }
  }

  // ----- what one message decides -----

  /** The answers that a step has posted behind the ones before it. */
  predicate Posts(before: Session, after: Session, conditions: seq<bool>) {
    && |after.outbox| == |before.outbox| + |conditions| && before.outbox <= after.outbox && after.framed == before.framed
    && forall k :: 0 <= k < |conditions| ==> after.outbox[|before.outbox| + k].condition == conditions[k]
  }

  /** A waiting session confirms exactly the requests with its registered key, with
      one answer; any other request expires it and is refused twice. */
  lemma KeyTestDecides(p: Session, request: Request, first: Secret, second: Secret)
    requires p.condition == Waiting
    ensures var t := TakeRequest(p, request, first, second);
            && t.id == CString(request.id) && t.registeredKey == p.registeredKey && t.subId == p.subId
            && if CString(request.registeredKey) == p.registeredKey then
                 t.condition == Confirmed && Posts(p, t, [true])
                 && t.outbox[|p.outbox|] == Response(CString(request.id), p.subId, t.keys, true)
                 && t.keys == if p.keys.encrypt then Keys(true, first.key, first.iv) else p.keys
               else
                 t.condition == Expired && Posts(p, t, [false, false])
  {
  }

  /** A data message is let through by a confirmed endpoint alone. Any other is
      expired by it: a session then posts one refusal, a client forgets its keys. */
  lemma DataNeedsConfirmation(p: Session, c: Client, secret: Secret)
    ensures p.condition == Confirmed || p.condition == Expired ==> SessionData(p, secret) == p
    ensures p.condition != Confirmed && p.condition != Expired ==>
              SessionData(p, secret).condition == Expired && Posts(p, SessionData(p, secret), [false])
    ensures c.condition == Confirmed || c.condition == Expired ==> ClientData(c) == c
    ensures c.condition != Confirmed && c.condition != Expired ==>
              ClientData(c) == c.(condition := Expired, keys := Keys(c.keys.encrypt, "", ""))
  {
  }

  /** A waiting client is confirmed by a confirming answer alone, and then has the
      keys of that answer; a refusal leaves it expired and without keys. */
  lemma AnswerDecides(c: Client, r: Response)
    requires c.condition == Waiting
    ensures var t := TakeResponse(c, r);
            if r.condition then
              && t.condition == Confirmed && t.subId == CString(r.subId) && t.serverId == r.id
              && t.keys == Keys(r.keys.encrypt, CString(r.keys.key), CString(r.keys.iv))
            else
              t.condition == Expired && t.keys.key == "" && t.keys.iv == "" && !t.keys.Active()
  {
  }

  predicate Over(s: System, session: bool, client: bool) {
    (session ==> s.session.condition == Expired) && (client ==> s.client.condition == Expired)
  }

  lemma {:induction false} OverStays(s: System, steps: seq<Step>, session: bool, client: bool)
    requires Over(s, session, client) && IsConnectionRun(s, steps)
    ensures Over(After(s, steps), session, client)
    decreases |steps|
  {
    if steps != [] {
      OverStays(Do(s, steps[0]), steps[1..], session, client);
    }
  }

  /** The step ends the connection for the endpoint that takes it: a wrong key, a
      data message before the confirmation, a refusing answer. */
  predicate Ends(s: System, step: Step, session: bool) {
    match step
    case SessionTakes(i, _, _) =>
      session && i < |s.toSession| && s.session.condition == Waiting && !s.session.keys.Active()
      && CString(s.toSession[i].registeredKey) != s.session.registeredKey
    case SessionHearsData(_) => session && s.session.condition != Confirmed
    case ClientHearsData => !session && s.client.condition != Confirmed
    case ClientTakes(i) =>
      !session && i < |s.toClient| && s.client.condition == Waiting && !s.client.keys.Active() && !s.toClient[i].condition
    case _ => false
  }

  /** Whatever requests and answers are still to come, and in every run of the
      connection: the endpoint is expired from that step on, and never confirmed. */
  lemma EndIsFinal(s: System, step: Step, session: bool, steps: seq<Step>)
    requires Enabled(s, step) && Ends(s, step, session) && IsConnectionRun(Do(s, step), steps)
    ensures var t := After(Do(s, step), steps);
            (if session then t.session.condition else t.client.condition) == Expired
  {
    OverStays(Do(s, step), steps, session, !session);
  }

  /** Neither side sends any more than is on the line. */
  predicate Silenced(s: System, t: System, session: bool) {
    if session then
      t.session.condition == Expired && t.session.framed == [] && multiset(t.toClient) <= multiset(s.toClient)
    else
      t.client.condition == Expired && t.client.framed == [] && multiset(t.toSession) <= multiset(s.toSession)
  }

  lemma StepKeepsSilenced(s: System, t: System, step: Step, session: bool)
    requires Silenced(s, t, session) && SameConnection(t, step)
    ensures Silenced(s, Do(t, step), session)
  {
    if session {
      SessionStaysSilent(s, t, step);
    } else {
      ClientStaysSilent(s, t, step);
    }
  }

  lemma SessionStaysSilent(s: System, t: System, step: Step)
    requires Silenced(s, t, true) && SameConnection(t, step)
    ensures Silenced(s, Do(t, step), true)
  {
    if step.ClientTakes? {
      R.OmitOne(t.toClient, step.i);
    }
  }

  lemma ClientStaysSilent(s: System, t: System, step: Step)
    requires Silenced(s, t, false) && SameConnection(t, step)
    ensures Silenced(s, Do(t, step), false)
  {
    if step.SessionTakes? {
      R.OmitOne(t.toSession, step.i);
    }
  }

  lemma {:induction false} StaysSilenced(s: System, t: System, steps: seq<Step>, session: bool)
    requires Silenced(s, t, session) && IsConnectionRun(t, steps)
    ensures Silenced(s, After(t, steps), session)
    decreases |steps|
  {
    if steps != [] {
      StepKeepsSilenced(s, t, steps[0], session);
      StaysSilenced(s, Do(t, steps[0]), steps[1..], session);
    }
  }

  /** A session that stopped, or a client that closed, sends nothing more in any run
      of the connection, whatever it had posted or framed. */
  lemma StopIsSilent(s: System, secret: Secret, steps: seq<Step>, session: bool)
    requires IsSecret(secret)
    requires var step := if session then SessionStops(secret) else ClientCloses; IsConnectionRun(Do(s, step), steps)
    ensures var step := if session then SessionStops(secret) else ClientCloses;
            Silenced(s, After(Do(s, step), steps), session)
  {
    StaysSilenced(s, Do(s, if session then SessionStops(secret) else ClientCloses), steps, session);
  }

  // ----- when a client gets in -----

  /** With keys left from an earlier connection, or with the wrong registered key. */
  predicate LockedOut(s: System) {
    && (s.client.condition == Waiting || s.client.condition == Expired)
    && (Passed(s) ==> s.client.condition == Expired || s.client.keys.Active())
  }

  lemma StepKeepsLockedOut(s: System, step: Step)
    requires Inv(s) && LockedOut(s) && SameConnection(s, step)
    ensures Inv(Do(s, step)) && LockedOut(Do(s, step))
  {
    StepKeepsInv(s, step);
    if step.ClientTakes? {
      assert s.toClient[step.i] in s.toClient;
    }
  }

  lemma {:induction false} StaysOut(s: System, steps: seq<Step>)
    requires Inv(s) && LockedOut(s) && IsConnectionRun(s, steps)
    ensures After(s, steps).client.condition != Confirmed
    decreases |steps|
  {
    if steps != [] {
      StepKeepsLockedOut(s, steps[0]);
      StaysOut(Do(s, steps[0]), steps[1..]);
    }
  }

  /** The run in which nothing goes wrong. */
  function Straight(secret: Secret): seq<Step> {
    [ClientCompresses(0), ClientSends(0), SessionTakes(0, secret, secret)]
    + [SessionCompresses(0), SessionSends(0), ClientTakes(0)]
  }

  /** The session has taken the request and posted its answer. */
  function Answered(s: System, secret: Secret): System {
    var p := Respond(s.session.(id := CString(s.client.id), condition := Confirmed), true, secret);
    s.(client := s.client.(outbox := []), session := p)
  }

  /** The client has taken the answer. */
  function Entered(s: System, secret: Secret): System {
    var a := Answered(s, secret);
    a.(client := TakeResponse(a.client, a.session.outbox[0]), session := a.session.(outbox := []))
  }

  lemma FirstHalf(s: System, secret: Secret)
    requires IsFresh(s) && Passed(s) && IsSecret(secret)
    ensures IsConnectionRun(s, [ClientCompresses(0), ClientSends(0), SessionTakes(0, secret, secret)])
    ensures After(s, [ClientCompresses(0), ClientSends(0), SessionTakes(0, secret, secret)]) == Answered(s, secret)
  {
    var request := Request(s.client.id, s.requested);
    var s1 := s.(client := s.client.(outbox := [], framed := [request]));
    var s2 := s1.(client := s1.client.(framed := []), toSession := [request]);
    assert Do(s, ClientCompresses(0)) == s1;
    assert Do(s1, ClientSends(0)) == s2;
    assert Do(s2, SessionTakes(0, secret, secret)) == Answered(s, secret);
    R.Three(SameConnection, Do, s, ClientCompresses(0), s1, ClientSends(0), s2, SessionTakes(0, secret, secret), Answered(s, secret));
  }

  lemma SecondHalf(s: System, secret: Secret)
    requires IsFresh(s) && Passed(s) && IsSecret(secret) && !s.client.keys.Active()
    ensures IsConnectionRun(Answered(s, secret), [SessionCompresses(0), SessionSends(0), ClientTakes(0)])
    ensures After(Answered(s, secret), [SessionCompresses(0), SessionSends(0), ClientTakes(0)]) == Entered(s, secret)
  {
    var a := Answered(s, secret);
    var response := a.session.outbox[0];
    var a1 := a.(session := a.session.(outbox := [], framed := [response]));
    var a2 := a1.(session := a1.session.(framed := []), toClient := [response]);
    assert Do(a, SessionCompresses(0)) == a1;
    assert Do(a1, SessionSends(0)) == a2;
    assert Do(a2, ClientTakes(0)) == Entered(s, secret);
    R.Three(SameConnection, Do, a, SessionCompresses(0), a1, SessionSends(0), a2, ClientTakes(0), Entered(s, secret));
  }

  lemma GetsIn(s: System, secret: Secret)
    requires IsFresh(s) && Passed(s) && IsSecret(secret) && !s.client.keys.Active()
    ensures IsConnectionRun(s, Straight(secret)) && After(s, Straight(secret)) == Entered(s, secret)
    ensures Entered(s, secret).client.condition == Entered(s, secret).session.condition == Confirmed
  {
    FirstHalf(s, secret);
    SecondHalf(s, secret);
    R.InTwo(SameConnection, Do, s, [ClientCompresses(0), ClientSends(0), SessionTakes(0, secret, secret)],
            [SessionCompresses(0), SessionSends(0), ClientTakes(0)]);
  }

  /** The end of a run in which the session expires between the two jobs of its
      answer, and the answer leaves afterwards. */
  function Late(s: System, secret: Secret): System {
    var a := Answered(s, secret);
    a.(session := ExpireSession(a.session.(outbox := []), secret), toClient := [a.session.outbox[0]])
  }

  lemma LateHalf(s: System, secret: Secret)
    requires IsFresh(s) && Passed(s) && IsSecret(secret)
    ensures IsConnectionRun(Answered(s, secret), [SessionCompresses(0), SessionExpires(secret), SessionSends(0)])
    ensures After(Answered(s, secret), [SessionCompresses(0), SessionExpires(secret), SessionSends(0)]) == Late(s, secret)
  {
    var a := Answered(s, secret);
    var answer := a.session.outbox[0];
    var a1 := a.(session := a.session.(outbox := [], framed := [answer]));
    var a2 := a1.(session := ExpireSession(a1.session, secret));
    assert Do(a, SessionCompresses(0)) == a1;
    assert Do(a1, SessionExpires(secret)) == a2;
    assert Do(a2, SessionSends(0)) == Late(s, secret);
    R.Three(SameConnection, Do, a, SessionCompresses(0), a1, SessionExpires(secret), a2, SessionSends(0), Late(s, secret));
  }

  /** Whenever the key test passes, there is such a run: an expired session has its
      confirming answer framed, and sends it. */
  lemma ExpiredSessionMaySpeak(s: System, secret: Secret)
    requires IsFresh(s) && Passed(s) && IsSecret(secret)
    ensures var steps := [ClientCompresses(0), ClientSends(0), SessionTakes(0, secret, secret)]
                         + [SessionCompresses(0), SessionExpires(secret), SessionSends(0)];
            && IsConnectionRun(s, steps) && After(s, steps) == Late(s, secret)
            && Late(s, secret).session.condition == Expired
            && |Late(s, secret).toClient| == 1 && Late(s, secret).toClient[0].condition
  {
    FirstHalf(s, secret);
    LateHalf(s, secret);
    R.InTwo(SameConnection, Do, s, [ClientCompresses(0), ClientSends(0), SessionTakes(0, secret, secret)],
            [SessionCompresses(0), SessionExpires(secret), SessionSends(0)]);
  }

  ghost predicate CanGetIn(s: System) {
    exists steps :: IsConnectionRun(s, steps) && After(s, steps).client.condition == Confirmed
  }

  /** A connection can be confirmed exactly if the registered keys agree, up to
      the first zero, and the client starts without a usable key and iv. */
  lemma GetsInExactly(s: System)
    requires IsFresh(s)
    ensures CanGetIn(s) <==> CString(s.client.registeredKey) == s.session.registeredKey && !s.client.keys.Active()
  {
    if Passed(s) && !s.client.keys.Active() {
      GetsIn(s, Secret("k", "v"));
      assert After(s, Straight(Secret("k", "v"))).client.condition == Confirmed;
    } else {
      FreshIsSound(s);
      forall steps | IsConnectionRun(s, steps) ensures After(s, steps).client.condition != Confirmed {
        StaysOut(s, steps);
      }
    }
  }

  lemma FreshIsSound(s: System)
    requires IsFresh(s)
    ensures Inv(s)
  {
  }

  /** So in every run a confirmed client that is started again before it expired,
      by `stop` or by the failing read, can be confirmed exactly if the session it
      leaves did not encrypt and its registered key, which may have been changed on
      either side, passes; if it expired first, exactly if the key passes. */
  lemma RestartNeedsExpiry(s: System, steps: seq<Step>, subId: string, serverKey: string, encrypt: bool)
    requires IsFresh(s) && IsRun(s, steps) && IsText(subId)
    requires After(s, steps).client.condition == Confirmed
    ensures var t := After(s, steps);
            var again := Reconnect(subId, serverKey, encrypt);
            && (CanGetIn(Do(t, again))
                <==> !t.session.keys.encrypt && CString(t.client.registeredKey) == serverKey)
            && (CanGetIn(Do(Do(t, ClientExpires), again)) <==> CString(t.client.registeredKey) == serverKey)
  {
    ConfirmedKeys(s, steps);
    var t := After(s, steps);
    ReconnectGetsIn(t, subId, serverKey, encrypt);
    ReconnectGetsIn(Do(t, ClientExpires), subId, serverKey, encrypt);
  }

  lemma ConfirmedKeys(s: System, steps: seq<Step>)
    requires IsFresh(s) && IsRun(s, steps) && After(s, steps).client.condition == Confirmed
    ensures var t := After(s, steps);
            && (t.client.keys.Active() <==> t.session.keys.encrypt)
            && !Do(t, ClientExpires).client.keys.Active()
            && Do(t, ClientExpires).client.registeredKey == t.client.registeredKey
  {
    RunKeepsInv(s, steps);
  }

  lemma ReconnectGetsIn(t: System, subId: string, serverKey: string, encrypt: bool)
    requires IsText(subId)
    ensures CanGetIn(Do(t, Reconnect(subId, serverKey, encrypt)))
       <==> CString(t.client.registeredKey) == serverKey && !t.client.keys.Active()
  {
    var u := Fresh(Connect(t.client), serverKey, encrypt, subId);
    assert Do(t, Reconnect(subId, serverKey, encrypt)) == u;
    assert Connect(u.client) == u.client;
    GetsInExactly(u);
  }
}
