/** The client side of the writing-assistant WebSocket (`useWebSocket`):
    connection status, a bounded reconnect counter with capped exponential
    backoff, and messages that are sent only while the socket is open. */
module WebSocketClient {
  import opened Wrappers

  datatype Status = Connecting | Connected | Disconnected | Error

  /** `WebSocket.readyState` */
  datatype ReadyState = SocketConnecting | Open | Closing | Closed

  /** The messages the hook's builders and heartbeat send. */
  datatype Message = StartSession | TextUpdate(text: string) | RequestImprovement(text: string) | Ping

  const MaxReconnectAttempts: nat := 5
  const MaxDelay: nat := 10000

  function Pow2(n: nat): (r: nat)
    ensures r >= 1
  {
    if n == 0 then 1 else 2 * Pow2(n - 1)
  }

  /** `Math.min(1000 * Math.pow(2, attempt), 10000)`, in milliseconds. */
  function Backoff(attempt: nat): (d: nat)
    ensures d <= MaxDelay
  {
    if 1000 * Pow2(attempt) < MaxDelay then 1000 * Pow2(attempt) else MaxDelay
  }

  lemma {:induction false} Pow2Monotone(m: nat, n: nat)
    requires m <= n
    ensures Pow2(m) <= Pow2(n)
    decreases n
  {
    if m < n {
      Pow2Monotone(m, n - 1);
    }
  }

  /** Every scheduled delay (the counter is at least 1 after the increment)
      lies between 2 and 10 seconds. */
  lemma BackoffBounds(attempt: nat)
    requires attempt >= 1
    ensures 2000 <= Backoff(attempt) <= MaxDelay
  {
    Pow2Monotone(1, attempt);
  }

  /** A later attempt never waits less. */
  lemma BackoffMonotone(m: nat, n: nat)
    requires m <= n
    ensures Backoff(m) <= Backoff(n)
  {
    Pow2Monotone(m, n);
  }

  /** The five delays of a run of failed reconnects. */
  lemma BackoffSchedule()
    ensures [Backoff(1), Backoff(2), Backoff(3), Backoff(4), Backoff(5)] == [2000, 4000, 8000, 10000, 10000]
  {
    assert Pow2(3) == 8;
    assert Pow2(5) == 32;
  }

  /** The hook's state: `wsRef` (the ready state of the socket it holds),
      `isConnected`, `connectionStatus`, the reconnect counter, whether a
      reconnect timer is pending, and the messages sent so far. */
  class Client {
    var socket: Option<ReadyState>
    var isConnected: bool
    var status: Status
    var attempts: nat
    var timerPending: bool
    var sent: seq<Message>

    /** The counter never exceeds its limit, and the status says connected
      only while the hook believes it is. */
    predicate Valid()
      reads this
    {
      attempts <= MaxReconnectAttempts && (status == Connected ==> isConnected)
    }

    constructor ()
      ensures Valid()
      ensures socket == None && !isConnected && status == Disconnected
      ensures attempts == 0 && !timerPending && sent == []
    {
      socket := None;
      isConnected := false;
      status := Disconnected;
      attempts := 0;
      timerPending := false;
      sent := [];
    }

    /** `connect`, with the outcome of the `WebSocket` constructor as a
      parameter: nothing happens while the socket is open; otherwise the
      status is "connecting", then "error" if the socket cannot be created. */
    method Connect(constructionFails: bool)
      requires Valid()
      modifies this
      ensures Valid()
      ensures old(socket) == Some(Open) ==> unchanged(this)
      ensures old(socket) != Some(Open) && constructionFails ==> status == Error && socket == old(socket)
      ensures old(socket) != Some(Open) && !constructionFails ==> status == Connecting && socket == Some(SocketConnecting)
      ensures isConnected == old(isConnected) && attempts == old(attempts) && sent == old(sent)
      ensures timerPending == old(timerPending)
    {
      if socket == Some(Open) {
        return;
      }
      status := Connecting;
      if constructionFails {
        status := Error;
      } else {
        socket := Some(SocketConnecting);
      }
    }

    /** `onopen`: connected, and the reconnect budget is restored. */
    method OnOpen()
      requires Valid()
      modifies this
      ensures Valid()
      ensures isConnected && status == Connected && attempts == 0
      ensures socket == (if old(socket).Some? then Some(Open) else None)
      ensures timerPending == old(timerPending) && sent == old(sent)
    {
      if socket.Some? {
        socket := Some(Open);
      }
      isConnected := true;
      status := Connected;
      attempts := 0;
    }

    /** `onerror`: only the status changes. */
    method OnError()
      requires Valid()
      modifies this
      ensures Valid()
      ensures status == Error
      ensures isConnected == old(isConnected) && socket == old(socket) && attempts == old(attempts)
      ensures timerPending == old(timerPending) && sent == old(sent)
    {
      status := Error;
    }

    /** `onclose`: disconnected, and a reconnect is scheduled, with the
      returned delay, while the counter is below the limit. */
    method OnClose() returns (delay: Option<nat>)
      requires Valid()
      modifies this
      ensures Valid()
      ensures !isConnected && status == Disconnected && socket == None
      ensures delay.Some? <==> old(attempts) < MaxReconnectAttempts
      ensures delay.Some? ==> attempts == old(attempts) + 1 && delay.value == Backoff(attempts) && timerPending
      ensures delay.None? ==> attempts == old(attempts) && timerPending == old(timerPending)
      ensures delay.Some? ==> 2000 <= delay.value <= MaxDelay
      ensures sent == old(sent)
    {
      isConnected := false;
      status := Disconnected;
      socket := None;
      if attempts < MaxReconnectAttempts {
        attempts := attempts + 1;
        BackoffBounds(attempts);
        delay := Some(Backoff(attempts));
        timerPending := true;
      } else {
        delay := None;
      }
    }

    /** The reconnect timer fires and calls `connect`. */
    method TimerFires(constructionFails: bool)
      requires Valid() && timerPending
      modifies this
      ensures Valid()
      ensures !timerPending
      ensures old(socket) == Some(Open) ==> status == old(status) && socket == old(socket)
      ensures old(socket) != Some(Open) && constructionFails ==> status == Error && socket == old(socket)
      ensures old(socket) != Some(Open) && !constructionFails ==> status == Connecting && socket == Some(SocketConnecting)
      ensures isConnected == old(isConnected) && attempts == old(attempts) && sent == old(sent)
    {
      timerPending := false;
      Connect(constructionFails);
    }

    /** `disconnect`: the pending timer is cleared and the socket dropped;
      the reconnect counter is left as it is. */
    method Disconnect()
      requires Valid()
      modifies this
      ensures Valid()
      ensures !timerPending && socket == None && !isConnected && status == Disconnected
      ensures attempts == old(attempts) && sent == old(sent)
    {
      timerPending := false;
      socket := None;
      isConnected := false;
      status := Disconnected;
    }

    /** `sendMessage`: transmitted only while the socket is open, dropped otherwise. */
    method SendMessage(m: Message)
      requires Valid()
      modifies this
      ensures Valid()
      ensures sent == old(sent) + (if old(socket) == Some(Open) then [m] else [])
      ensures socket == old(socket) && status == old(status) && isConnected == old(isConnected)
      ensures attempts == old(attempts) && timerPending == old(timerPending)
    {
      if socket == Some(Open) {
        sent := sent + [m];
      }
    }

    /** `startSession` */
    method Start()
      requires Valid()
      modifies this
      ensures Valid()
      ensures sent == old(sent) + (if old(socket) == Some(Open) then [StartSession] else [])
      ensures socket == old(socket) && status == old(status) && attempts == old(attempts)
      ensures isConnected == old(isConnected) && timerPending == old(timerPending)
    {
      SendMessage(StartSession);
    }

    /** `sendTextUpdate` */
    method SendTextUpdate(text: string)
      requires Valid()
      modifies this
      ensures Valid()
      ensures sent == old(sent) + (if old(socket) == Some(Open) then [TextUpdate(text)] else [])
      ensures socket == old(socket) && status == old(status) && attempts == old(attempts)
      ensures isConnected == old(isConnected) && timerPending == old(timerPending)
    {
      SendMessage(TextUpdate(text));
    }

    /** `requestImprovement` */
    method RequestImprovementFor(text: string)
      requires Valid()
      modifies this
      ensures Valid()
      ensures sent == old(sent) + (if old(socket) == Some(Open) then [RequestImprovement(text)] else [])
      ensures socket == old(socket) && status == old(status) && attempts == old(attempts)
      ensures isConnected == old(isConnected) && timerPending == old(timerPending)
    {
      SendMessage(RequestImprovement(text));
    }

    /** One tick of the 30-second heartbeat. */
    method Heartbeat()
      requires Valid()
      modifies this
      ensures Valid()
      ensures sent == old(sent) + (if old(socket) == Some(Open) then [Ping] else [])
      ensures socket == old(socket) && status == old(status) && attempts == old(attempts)
      ensures isConnected == old(isConnected) && timerPending == old(timerPending)
    {
      if socket == Some(Open) {
        SendMessage(Ping);
      }
    }
  }
}
