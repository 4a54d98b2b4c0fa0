/** The session object of Network/NetworkSession.cpp, as far as the connection
    handshake goes. */
module NetworkSession {
  import opened D = DataHandler
  import opened H = Handshake
  import opened Pipeline
  import R = Runs

  /** What a connection message can be: JSON that cannot be read up to the id, or
      that lacks the registered key, makes the handler throw. */
  datatype RequestData =
    | NoData
    | Unreadable
    | KeyMissing(id: string)
    | KeyNotText(id: string)
    | Whole(request: Request)

  function TakeData(s: Session, data: RequestData, first: Secret, second: Secret): Session {
    if s.condition != Waiting then s else
    match data
    case NoData => s
    case Unreadable => s
    case KeyMissing(id) => s.(id := CString(id))
    case KeyNotText(id) => Respond(ExpireSession(s.(id := CString(id)), first), false, second)
    case Whole(request) => TakeRequest(s, request, first, second)
  }

  /** What the receiving jobs of a session hand to its handlers. */
  datatype Heard = Asks(data: RequestData, first: Secret, second: Secret) | Content(secret: Secret)

  function Hear(s: Session, heard: Heard): Session {
    match heard
    case Asks(data, first, second) => TakeData(s, data, first, second)
    case Content(secret) => SessionData(s, secret)
  }

  /** A request that cannot be read up to its key is dropped without a trace but the id. */
  predicate Deciding(heard: Heard) {
    heard.Content? || heard.data.KeyNotText? || heard.data.Whole?
  }

  predicate Fits(heard: Heard, registeredKey: string) {
    heard.Asks? && heard.data.Whole? && CString(heard.data.request.registeredKey) == registeredKey
  }

  /** Once decided, a session stays as it is. */
  lemma {:induction false} DecidedStays(s: Session, messages: seq<Heard>)
    requires s.condition == Confirmed || s.condition == Expired
    ensures R.After(Hear, s, messages).condition == s.condition
    decreases |messages|
  {
    if messages != [] {
      DecidedStays(Hear(s, messages[0]), messages[1..]);
    }
  }

  /** Whatever a waiting session is sent, the first message that decides is the only
      one that counts: it is confirmed exactly if that message is a request with its
      registered key, so there is one guess and no second. */
  lemma {:induction false} FirstMessageDecides(s: Session, messages: seq<Heard>, k: nat)
    requires s.condition == Waiting && k <= |messages|
    requires forall j :: 0 <= j < k ==> !Deciding(messages[j])
    requires k < |messages| ==> Deciding(messages[k])
    ensures R.After(Hear, s, messages).condition
         == if k == |messages| then Waiting else if Fits(messages[k], s.registeredKey) then Confirmed else Expired
    decreases k
  {
    if messages != [] {
      var t := Hear(s, messages[0]);
      if k > 0 {
        FirstMessageDecides(t, messages[1..], k - 1);
      } else {
        DecidedStays(t, messages[1..]);
      }
    }
  }

  /** A message that does not decide leaves everything as it was, but for the id if that
      could be read. */
  lemma UndecidedLeavesAll(s: Session, data: RequestData, first: Secret, second: Secret)
    requires !Deciding(Asks(data, first, second))
    ensures var t := TakeData(s, data, first, second);
            t == s.(id := if s.condition == Waiting && data.KeyMissing? then CString(data.id) else s.id)
  {
  }

  /** A request whose key is no text is refused like one with a wrong key. */
  lemma NoTextIsRefused(s: Session, id: string, first: Secret, second: Secret)
    requires s.condition == Waiting
    ensures var t := TakeData(s, KeyNotText(id), first, second);
            t.condition == Expired && t.id == CString(id) && Posts(s, t, [false, false])
  {
  }

  class NetworkSession {
    var condition: Condition
    var id: string
    var subId: string
    var registeredKey: string
    var keys: Keys
    /** The pool and the socket exist, and the pool takes jobs. */
    var up: bool
    /** The compress jobs and the sending jobs of answers. */
    var outbox: seq<Response>
    var framed: seq<Response>
    /** What the server's callback is told. */
    var reported: seq<Response>

    ghost function View(): Session
      reads this
    {
      Session(condition, id, subId, registeredKey, keys, outbox, framed)
    }

    /** The new session of `NetworkServer` with the registered key it was given. */
    constructor (subId: string, registeredKey: string, encrypt: bool)
      ensures View() == Session(Idle, "unauthorized_client", subId, registeredKey, Keys(encrypt, "", ""), [], [])
      ensures !up && reported == []
    {
      condition, id, this.subId, this.registeredKey := Idle, "unauthorized_client", subId, registeredKey;
      keys := Keys(encrypt, "", "");
      up, outbox, framed, reported := false, [], [], [];
    }

    /** A pool of an earlier start is destroyed with the jobs in it. */
    method Start(connected: bool, secret: Secret)
      modifies this`condition, this`up, this`keys, this`outbox, this`framed, this`reported
      ensures connected ==> up && View() == old(View()).(condition := Waiting, outbox := [], framed := [])
      ensures !connected ==> up == old(up) && View() == old(View()).(condition := Idle)
    {
      SetCondition(Idle, secret);
      if !connected {
        return;
      }
      SetCondition(Waiting, secret);
      outbox, framed, up := [], [], true;
    }

    method ResponseConnection(accepted: bool, secret: Secret)
      modifies this`keys, this`outbox, this`reported
      ensures up ==> View() == Respond(old(View()), accepted, secret)
      ensures !up ==> View() == Respond(old(View()), accepted, secret).(outbox := old(outbox))
      ensures |reported| == |old(reported)| + 1 && old(reported) < reported
      ensures reported[|old(reported)|] == Response(id, subId, keys, accepted)
    {
      if keys.encrypt {
        keys := keys.(key := secret.key);
        keys := keys.(iv := secret.iv);
      }
      var message := Response(id, subId, keys, accepted);
      reported := reported + [message];
      if up {
        outbox := outbox + [message];
      }
    }

    /** The inherited setter with this class's `disconnected`. */
    method SetCondition(next: Condition, secret: Secret)
      modifies this`condition, this`keys, this`outbox, this`reported
      ensures next == Expired ==>
                View() == if up then ExpireSession(old(View()), secret)
                          else ExpireSession(old(View()), secret).(outbox := old(outbox))
      ensures next != Expired ==> View() == old(View()).(condition := next)
    {
      if condition == next {
        return;
      }
      condition := next;
      if condition == Expired {
        ResponseConnection(false, secret);
      }
    }

    /** Handlers are jobs of the pool, so there is one. A job that throws fails. */
    method ReceivedConnection(data: RequestData, first: Secret, second: Secret) returns (ok: bool)
      requires up
      modifies this`condition, this`id, this`keys, this`outbox, this`reported
      ensures View() == TakeData(old(View()), data, first, second)
      ensures ok == (old(condition) == Waiting && (data.KeyNotText? || data.Whole?))
    {
      if condition != Waiting || data.NoData? || data.Unreadable? {
        return false;
      }
      id := CString(match data case KeyMissing(i) => i case KeyNotText(i) => i case Whole(r) => r.id);
      if data.KeyMissing? {
        return false;
      }
      if data.KeyNotText? || CString(data.request.registeredKey) != registeredKey {
        SetCondition(Expired, first);
        ResponseConnection(false, second);
        return true;
      }
      SetCondition(Confirmed, first);
      ResponseConnection(true, first);
      return true;
    }

    /** The guard of the binary, text and file handlers. */
    method GuardData(secret: Secret) returns (ok: bool)
      requires up
      modifies this`condition, this`keys, this`outbox, this`reported
      ensures View() == SessionData(old(View()), secret) && ok == (old(condition) == Confirmed)
    {
      if condition != Confirmed {
        SetCondition(Expired, secret);
        return false;
      }
      return true;
    }

    /** A compress job of an answer: `compress_message` with its guard. */
    method CompressAnswer(i: nat)
      requires i < |outbox|
      modifies this`outbox, this`framed
      ensures View() == old(View()).(outbox := R.Omit(old(outbox), i),
                                     framed := CompressAt(condition, old(outbox), old(framed), i))
    {
      var answer := outbox[i];
      outbox := outbox[..i] + outbox[i + 1..];
      if condition == Expired {
        return;
      }
      framed := framed + [answer];
    }

    method Stop(secret: Secret)
      modifies this
      ensures !up && View() == StopSession(old(View()), secret)
    {
      SetCondition(Expired, secret);
      outbox, framed, up := [], [], false;
    }
  }
}
