/** The client object of Network/NetworkClient.cpp, as far as the connection
    handshake goes. */
module NetworkClient {
  import opened D = DataHandler
  import opened H = Handshake
  import opened Pipeline
  import R = Runs

  /** JSON that cannot be read up to the id makes the handler throw. */
  datatype ResponseData = NoData | Unreadable | Whole(response: Response)

  function TakeData(c: Client, data: ResponseData): Client {
    if data.Whole? then TakeResponse(c, data.response) else c
  }

  /** What the receiving jobs of a client hand to its handlers. */
  datatype Heard = Answers(data: ResponseData) | Content

  function Hear(c: Client, heard: Heard): Client {
    match heard
    case Answers(data) => TakeData(c, data)
    case Content => ClientData(c)
  }

  predicate Deciding(heard: Heard) {
    heard.Content? || heard.data.Whole?
  }

  lemma {:induction false} DecidedStays(c: Client, messages: seq<Heard>)
    requires c.condition == Confirmed || c.condition == Expired
    ensures R.After(Hear, c, messages) == c
    decreases |messages|
  {
    if messages != [] {
      DecidedStays(Hear(c, messages[0]), messages[1..]);
    }
  }

  /** Of all that a waiting client is sent, the first message that decides is the only
      one that counts: before it nothing changes, and after it nothing more does. */
  lemma {:induction false} FirstAnswerDecides(c: Client, messages: seq<Heard>, k: nat)
    requires c.condition == Waiting && k <= |messages|
    requires forall j :: 0 <= j < k ==> !Deciding(messages[j])
    requires k < |messages| ==> Deciding(messages[k])
    ensures var t := R.After(Hear, c, messages);
            if k == |messages| then t == c
            else if messages[k].Content? then t == c.(condition := Expired, keys := Keys(c.keys.encrypt, "", ""))
            else t == TakeResponse(c, messages[k].data.response)
    decreases k
  {
    if messages != [] {
      var t := Hear(c, messages[0]);
      if k > 0 {
        FirstAnswerDecides(t, messages[1..], k - 1);
      } else {
        DecidedStays(t, messages[1..]);
      }
    }
  }

  class NetworkClient {
    var condition: Condition
    var id: string
    var subId: string
    var serverId: string
    var registeredKey: string
    var keys: Keys
    var outbox: seq<Request>
    var framed: seq<Request>
    /** Whether there is an `io_context`, and whether a thread waits in `wait_stop`. */
    var started: bool
    var awaited: bool
    /** The calls of the connection callback: confirmed, by itself. */
    var notified: seq<(bool, bool)>
    /** The connection jobs posted with the same arguments. */
    var posted: seq<(bool, bool)>

    ghost function View(): Client
      reads this
    {
      Client(condition, id, subId, serverId, registeredKey, keys, outbox, framed)
    }

    constructor (id: string)
      ensures View() == Client(Idle, id, "", "", "", Keys(false, "", ""), [], []) && notified == [] && posted == []
      ensures !started && !awaited
    {
      condition, this.id, subId, serverId, registeredKey := Idle, id, "", "", "";
      keys, outbox, framed, notified, posted := Keys(false, "", ""), [], [], [], [];
      started, awaited := false, false;
    }

    method Disconnected(byItself: bool)
      modifies this`keys, this`notified
      ensures View() == WithoutKeys(old(View())) && notified == old(notified) + [(false, byItself)]
    {
      keys := keys.(key := "");
      keys := keys.(iv := "");
      notified := notified + [(false, byItself)];
    }

    /** The inherited setter with this class's `disconnected`. */
    method SetCondition(next: Condition, byItself: bool)
      modifies this`condition, this`keys, this`notified
      ensures next == Expired ==> View() == ExpireClient(old(View()))
      ensures next != Expired ==> View() == old(View()).(condition := next)
      ensures notified == old(notified)
                          + if next == Expired && old(condition) != Expired then [(false, byItself)] else []
    {
      if condition == next {
        return;
      }
      condition := next;
      if condition == Expired {
        Disconnected(byItself);
      }
    }

    /** `start` up to the request. The socket may fail to connect. */
    method Start(connected: bool) returns (ok: bool)
      modifies this`condition, this`outbox, this`framed, this`keys, this`notified, this`started
      ensures ok == started == connected && notified == old(notified)
      ensures connected ==> View() == Connect(old(View()))
      ensures !connected ==> View() == old(View()).(condition := Idle, outbox := [], framed := [])
    {
      outbox, framed, started := [], [], false;
      SetCondition(Idle, false);
      if !connected {
        return false;
      }
      started := true;
      SetCondition(Waiting, false);
      outbox := outbox + [Request(id, registeredKey)];
      return true;
    }

    /** `received_data` for a connection message and the handler behind it. A
        refusal is notified at once and posted once more. */
    method ReceivedConnection(data: ResponseData) returns (ok: bool)
      modifies this`condition, this`serverId, this`subId, this`keys, this`notified, this`posted
      ensures View() == TakeData(old(View()), data)
      ensures ok == (old(condition) == Waiting && data.Whole? && data.response.condition)
      ensures notified == old(notified)
                          + if old(condition) == Waiting && data.Whole? && !data.response.condition then [(false, false)] else []
      ensures posted == old(posted) + if old(condition) == Waiting && data.Whole? then [(data.response.condition, true)] else []
    {
      if condition == Expired {
        return false;
      }
      if condition != Waiting || !data.Whole? {
        return false;
      }
      var response := data.response;
      serverId := response.id;
      subId := CString(response.subId);
      keys := Keys(response.keys.encrypt, CString(response.keys.key), CString(response.keys.iv));
      if !response.condition {
        SetCondition(Expired, false);
        keys := keys.(key := "", iv := "");
        posted := posted + [(false, true)];
        return false;
      }
      SetCondition(Confirmed, false);
      posted := posted + [(true, true)];
      return true;
    }

    /** `received_data` and the guard of the binary, text and file handlers. */
    method GuardData() returns (ok: bool)
      modifies this`condition, this`keys, this`notified
      ensures View() == ClientData(old(View())) && ok == (old(condition) == Confirmed)
    {
      if condition == Expired {
        return false;
      }
      if condition != Confirmed {
        SetCondition(Expired, false);
        return false;
      }
      return true;
    }

    /** A thread that waits is woken, and closes the socket and the pool itself. */
    method Stop()
      modifies this`condition, this`keys, this`notified, this`outbox, this`framed, this`started, this`awaited
      ensures !old(started) ==> View() == old(View()) && notified == old(notified) && !started && awaited == old(awaited)
      ensures old(started) && old(awaited) ==> View() == ExpireClient(old(View())) && started && !awaited
      ensures old(started) && !old(awaited) ==>
                View() == ExpireClient(old(View())).(outbox := [], framed := []) && !started && !awaited
      ensures old(started) ==>
                notified == old(notified) + if old(condition) != Expired then [(false, true)] else []
    {
      if !started {
        return;
      }
      SetCondition(Expired, true);
      if awaited {
        awaited := false;
        return;
      }
      outbox, framed, started := [], [], false;
    }
  }
}
