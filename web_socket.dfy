/**
 * The WebSocket session (Support/WebSocket.swift): the flags and optional
 * members that `connect`, `disconnect`, `send`, the receive loop, pinging
 * and the URLSession delegate callbacks update. Each callback is one event
 * method, delivered on the main queue one at a time. The network, the timer
 * and the URLSession objects are not modelled; only whether each is present.
 */
module WebSockets {
  import opened Wrappers

  /** `URLSessionWebSocketTask.Message`. */
  datatype Message = Text(text: string) | Data(bytes: Bytes)

  /** An error reported by URLSession; only its text is kept. */
  datatype Error = Error(description: string)

  /** What the session has done towards the outside, in order. */
  datatype Effect =
    | TaskSend(message: Message)                              // `task.send(message)`
    | CompletionCalled(completion: nat, error: Option<Error>)  // `connectCompletion?(error)`
    | DidConnect                                              // `webSocketDidConnect`
    | DidDisconnect                                           // `webSocketDidDisconnect`
    | DidReceive(message: Message)                            // `webSocket(_:didRecieve:)`

  /** How an authentication challenge is answered. */
  datatype Disposition = UseCredential | PerformDefaultHandling

  /** The value of `NSURLAuthenticationMethodServerTrust`. */
  const ServerTrust: string := "NSURLAuthenticationMethodServerTrust"

  /**
   * `urlSession(_:didReceive:completionHandler:)`: the server's trust is
   * accepted only on a first attempt at a server-trust challenge that
   * carries a trust object.
   */
  function AnswerChallenge(previousFailureCount: int, authenticationMethod: string, hasServerTrust: bool): (d: Disposition)
    ensures d == UseCredential <==> previousFailureCount < 1 && authenticationMethod == ServerTrust && hasServerTrust
  {
    if previousFailureCount < 1 && authenticationMethod == ServerTrust && hasServerTrust then UseCredential
    else PerformDefaultHandling
  }

  /** The completions that have been called, by identity. */
  function Called(effects: seq<Effect>): set<nat> {
    set i | 0 <= i < |effects| && effects[i].CompletionCalled? :: effects[i].completion
  }

  /** No completion has been called twice. */
  predicate CalledAtMostOnce(effects: seq<Effect>) {
    forall i, j :: 0 <= i < j < |effects| && effects[i].CompletionCalled? && effects[j].CompletionCalled? ==>
      effects[i].completion != effects[j].completion
  }

  /**
   * `WebSocket`. A completion is named by a number, so that the effects can
   * say which one was called.
   */
  class WebSocket {
    const url: string
    const pingMessage: Option<Message>
    var hasSession: bool
    var hasTask: bool
    var hasPingTimer: bool
    var connectCompletion: Option<nat>
    var isConnecting: bool
    var isConnected: bool
    /**
     * A `task.receive` handler is registered and has not been called back.
     * One flag stands for the handler of the current task; a handler still
     * pending on a task cancelled before a reconnect is not told apart from it.
     */
    var receiving: bool
    /** How many `task.send` handlers have not been called back. */
    var pendingSends: nat
    var effects: seq<Effect>

    /**
     * What every step keeps: never connecting and connected at once, and
     * either only with a session; a task only with a session; a ping timer only when there is a ping message;
     * a pending completion has not been called; no completion is called twice.
     */
    predicate Valid()
      reads this
    {
      && !(isConnecting && isConnected)
      && (isConnecting || isConnected ==> hasSession)
      && hasTask == hasSession
      && (hasPingTimer ==> pingMessage.Some?)
      && (connectCompletion.Some? ==> connectCompletion.value !in Called(effects))
      && CalledAtMostOnce(effects)
    }

    /** `init(url:pingMessage:delegate:)`. */
    constructor(url: string, pingMessage: Option<Message>)
      ensures Valid()
      ensures this.url == url && this.pingMessage == pingMessage
      ensures !hasSession && !hasTask && !hasPingTimer && connectCompletion.None?
      ensures !isConnecting && !isConnected && !receiving && pendingSends == 0 && effects == []
    {
      this.url := url;
      this.pingMessage := pingMessage;
      hasSession, hasTask, hasPingTimer := false, false, false;
      connectCompletion := None;
      isConnecting, isConnected := false, false;
      receiving, pendingSends := false, 0;
      effects := [];
    }

    /**
     * `connect(completion:)`: ignored while connecting or connected;
     * otherwise a new session and task are made and the completion is kept.
     * The caller hands in a completion that has not been called.
     */
    method Connect(completion: Option<nat>)
      requires Valid()
      requires completion.Some? ==> completion.value !in Called(effects)
      modifies this
      ensures Valid()
      ensures old(isConnecting || isConnected) ==> unchanged(this)
      ensures !old(isConnecting || isConnected) ==>
                isConnecting && !isConnected && hasSession && hasTask && connectCompletion == completion
                && hasPingTimer == old(hasPingTimer) && receiving == old(receiving)
                && pendingSends == old(pendingSends) && effects == old(effects)
    {
      if isConnecting || isConnected {
        return;
      }
      isConnecting := true;
      connectCompletion := completion;
      hasSession := true;
      hasTask := true;
    }

    /** `stopPinging()`. */
    method StopPinging()
      requires Valid()
      modifies this
      ensures Valid()
      ensures !hasPingTimer
      ensures hasSession == old(hasSession) && hasTask == old(hasTask) && connectCompletion == old(connectCompletion)
      ensures isConnecting == old(isConnecting) && isConnected == old(isConnected)
      ensures receiving == old(receiving) && pendingSends == old(pendingSends) && effects == old(effects)
    {
      hasPingTimer := false;
    }

    /**
     * `disconnect()`: without a session nothing happens; otherwise the
     * session, the socket task, both flags and the ping timer are cleared and the
     * delegate is told once. A pending completion is kept.
     */
    method Disconnect()
      requires Valid()
      modifies this
      ensures Valid()
      ensures !old(hasSession) ==> unchanged(this)
      ensures old(hasSession) ==>
                !hasSession && !hasTask && !isConnected && !isConnecting && !hasPingTimer
                && connectCompletion == old(connectCompletion) && receiving == old(receiving)
                && pendingSends == old(pendingSends) && effects == old(effects) + [DidDisconnect]
    {
      if !hasSession {
        return;
      }
      hasSession := false;
      hasTask := false;
      isConnected := false;
      isConnecting := false;
      StopPinging();
      effects := effects + [DidDisconnect];
    }

    /** `send(_:completion:)`: without a task nothing happens; otherwise the message goes to the socket task. */
    method Send(message: Message)
      requires Valid()
      modifies this
      ensures Valid()
      ensures !old(hasTask) ==> unchanged(this)
      ensures old(hasTask) ==>
                effects == old(effects) + [TaskSend(message)] && pendingSends == old(pendingSends) + 1
                && hasSession == old(hasSession) && hasTask && hasPingTimer == old(hasPingTimer)
                && connectCompletion == old(connectCompletion) && isConnecting == old(isConnecting)
                && isConnected == old(isConnected) && receiving == old(receiving)
    {
      if !hasTask {
        return;
      }
      effects := effects + [TaskSend(message)];
      pendingSends := pendingSends + 1;
    }

    /** The handler of one `task.send`: an error disconnects, success changes nothing. */
    method SendCompleted(error: Option<Error>)
      requires Valid() && pendingSends > 0
      modifies this
      ensures Valid()
      ensures pendingSends == old(pendingSends) - 1
      ensures error.None? ==>
                effects == old(effects) && hasSession == old(hasSession) && hasTask == old(hasTask)
                && hasPingTimer == old(hasPingTimer) && connectCompletion == old(connectCompletion)
                && isConnecting == old(isConnecting) && isConnected == old(isConnected) && receiving == old(receiving)
      ensures error.Some? ==> !hasSession && !hasTask && !isConnected && !isConnecting
      ensures error.Some? ==> hasPingTimer == (old(hasPingTimer) && !old(hasSession))
      ensures error.Some? ==> connectCompletion == old(connectCompletion) && receiving == old(receiving)
      ensures error.Some? ==> effects == old(effects) + (if old(hasSession) then [DidDisconnect] else [])
    {
      pendingSends := pendingSends - 1;
      if error.Some? {
        Disconnect();
      }
    }

    /** `recieveMessage()`: without a task nothing happens; otherwise a receive handler is registered. */
    method ReceiveMessage()
      requires Valid()
      modifies this
      ensures Valid()
      ensures receiving == (old(receiving) || old(hasTask))
      ensures hasSession == old(hasSession) && hasTask == old(hasTask) && hasPingTimer == old(hasPingTimer)
      ensures connectCompletion == old(connectCompletion) && isConnecting == old(isConnecting)
      ensures isConnected == old(isConnected) && pendingSends == old(pendingSends) && effects == old(effects)
    {
      if !hasTask {
        return;
      }
      receiving := true;
    }

    /**
     * The receive handler, on success: the delegate gets the message and the
     * next receive is registered (when there is still a task).
     */
    method Received(message: Message)
      requires Valid() && receiving
      modifies this
      ensures Valid()
      ensures effects == old(effects) + [DidReceive(message)]
      ensures receiving == hasTask
      ensures hasSession == old(hasSession) && hasTask == old(hasTask) && isConnected == old(isConnected)
      ensures hasPingTimer == old(hasPingTimer) && connectCompletion == old(connectCompletion)
      ensures isConnecting == old(isConnecting) && pendingSends == old(pendingSends)
    {
      receiving := false;
      effects := effects + [DidReceive(message)];
      ReceiveMessage();
    }

    /** The receive handler, on failure: the session is torn down. */
    method ReceiveFailed(error: Error)
      requires Valid() && receiving
      modifies this
      ensures Valid()
      ensures !receiving && !hasSession && !hasTask && !isConnected && !isConnecting
      ensures hasPingTimer == (old(hasPingTimer) && !old(hasSession))
      ensures connectCompletion == old(connectCompletion) && pendingSends == old(pendingSends)
      ensures effects == old(effects) + (if old(hasSession) then [DidDisconnect] else [])
    {
      receiving := false;
      Disconnect();
    }

    /** `startPinging()`: a ping timer exists afterwards exactly when there is a ping message. */
    method StartPinging()
      requires Valid()
      modifies this
      ensures Valid()
      ensures pingMessage.Some? ==> hasPingTimer
      ensures pingMessage.None? ==> hasPingTimer == old(hasPingTimer)
      ensures hasSession == old(hasSession) && hasTask == old(hasTask) && connectCompletion == old(connectCompletion)
      ensures isConnecting == old(isConnecting) && isConnected == old(isConnected)
      ensures receiving == old(receiving) && pendingSends == old(pendingSends) && effects == old(effects)
    {
      if pingMessage.Some? {
        hasPingTimer := true;
      }
    }

    /** One tick of the ping timer: the ping message is sent. */
    method PingTimerFired()
      requires Valid() && hasPingTimer
      modifies this
      ensures Valid()
      ensures old(hasTask) ==> effects == old(effects) + [TaskSend(pingMessage.value)]
      ensures !old(hasTask) ==> effects == old(effects)
      ensures pendingSends == old(pendingSends) + (if old(hasTask) then 1 else 0)
      ensures hasSession == old(hasSession) && hasTask == old(hasTask) && hasPingTimer == old(hasPingTimer)
      ensures isConnecting == old(isConnecting) && isConnected == old(isConnected)
      ensures connectCompletion == old(connectCompletion) && receiving == old(receiving)
    {
      Send(pingMessage.value);
    }

    /**
     * `urlSession(_:webSocketTask:didOpenWithProtocol:)`: connected; the
     * completion is called without an error and dropped; receiving and
     * pinging start; the delegate is told. URLSession reports the opening
     * only for the socket task of a live session.
     */
    method DidOpen()
      requires Valid() && hasSession
      modifies this
      ensures Valid()
      ensures !isConnecting && isConnected && connectCompletion.None?
      ensures hasSession == old(hasSession) && hasTask == old(hasTask) && pendingSends == old(pendingSends)
      ensures receiving == (old(receiving) || hasTask)
      ensures pingMessage.Some? ==> hasPingTimer
      ensures effects == old(effects)
                         + (if old(connectCompletion).Some? then [CompletionCalled(old(connectCompletion).value, None)] else [])
                         + [DidConnect]
    {
      isConnecting := false;
      isConnected := true;
      CallCompletion(None);
      ReceiveMessage();
      StartPinging();
      effects := effects + [DidConnect];
    }

    /** `connectCompletion?(error)` followed by `connectCompletion = nil`. */
    method CallCompletion(error: Option<Error>)
      requires Valid()
      modifies this
      ensures Valid()
      ensures connectCompletion.None?
      ensures effects == old(effects) + (if old(connectCompletion).Some? then [CompletionCalled(old(connectCompletion).value, error)] else [])
      ensures hasSession == old(hasSession) && hasTask == old(hasTask) && hasPingTimer == old(hasPingTimer)
      ensures isConnecting == old(isConnecting) && isConnected == old(isConnected)
      ensures receiving == old(receiving) && pendingSends == old(pendingSends)
    {
      if connectCompletion.Some? {
        var c := connectCompletion.value;
        assert c !in Called(effects);
        CalledAfterAppend(effects, c, error);
        effects := effects + [CompletionCalled(c, error)];
      }
      connectCompletion := None;
    }

    /** `urlSession(_:webSocketTask:didCloseWith:reason:)`: the server closed; disconnect. */
    method DidClose()
      requires Valid()
      modifies this
      ensures Valid()
      ensures !hasSession && !hasTask && !isConnected && !isConnecting
      ensures hasPingTimer == (old(hasPingTimer) && !old(hasSession))
      ensures connectCompletion == old(connectCompletion) && receiving == old(receiving)
      ensures pendingSends == old(pendingSends)
      ensures effects == old(effects) + (if old(hasSession) then [DidDisconnect] else [])
    {
      Disconnect();
    }

    /**
     * `urlSession(_:task:didCompleteWithError:)`: with an error, no longer
     * connecting and the completion is called with the error and dropped;
     * `isConnected` is left as it is. Without an error nothing happens.
     */
    method DidCompleteWithError(error: Option<Error>)
      requires Valid()
      modifies this
      ensures Valid()
      ensures error.None? ==> unchanged(this)
      ensures error.Some? ==>
                !isConnecting && isConnected == old(isConnected) && connectCompletion.None?
                && hasSession == old(hasSession) && hasTask == old(hasTask) && hasPingTimer == old(hasPingTimer)
                && receiving == old(receiving) && pendingSends == old(pendingSends)
                && effects == old(effects) + (if old(connectCompletion).Some? then [CompletionCalled(old(connectCompletion).value, error)] else [])
    {
      if error.Some? {
        isConnecting := false;
        CallCompletion(error);
      }
    }
  }

  /** Calling a completion not called before keeps every completion called at most once. */
  lemma CalledAfterAppend(effects: seq<Effect>, c: nat, error: Option<Error>)
    requires CalledAtMostOnce(effects) && c !in Called(effects)
    ensures CalledAtMostOnce(effects + [CompletionCalled(c, error)])
    ensures Called(effects + [CompletionCalled(c, error)]) == Called(effects) + {c}
  {
    var e := effects + [CompletionCalled(c, error)];
    forall i | 0 <= i < |effects| && effects[i].CompletionCalled?
      ensures effects[i].completion != c
    {
      assert effects[i].completion in Called(effects);
    }
    assert forall i :: 0 <= i < |effects| ==> e[i] == effects[i];
    forall x | x in Called(effects) + {c}
      ensures x in Called(e)
    {
      if x == c {
        assert e[|effects|].completion == c;
      } else {
        var i :| 0 <= i < |effects| && effects[i].CompletionCalled? && effects[i].completion == x;
        assert e[i] == effects[i];
      }
    }
  }

  /** Disconnecting twice in a row notifies the delegate once. */
  method DisconnectTwice(url: string) returns (effects: seq<Effect>)
    ensures effects == [CompletionCalled(0, None), DidConnect, DidDisconnect]
  {
    var ws := new WebSocket(url, None);
    ws.Connect(Some(0));
    ws.DidOpen();
    ws.Disconnect();
    ws.Disconnect();
    effects := ws.effects;
  }

  /**
   * A connect that fails calls its completion once, with the error; the
   * cancellation reported after a later disconnect calls nothing more.
   */
  method FailedConnect(url: string, e: Error) returns (effects: seq<Effect>)
    ensures effects == [CompletionCalled(7, Some(e)), DidDisconnect]
  {
    var ws := new WebSocket(url, None);
    ws.Connect(Some(7));
    ws.DidCompleteWithError(Some(e));
    ws.Disconnect();
    ws.DidCompleteWithError(Some(Error("cancelled")));
    effects := ws.effects;
  }

  /**
   * A disconnect while still connecting keeps the completion; the
   * cancellation error that follows is what calls it.
   */
  method DisconnectWhileConnecting(url: string, cancelled: Error) returns (effects: seq<Effect>)
    ensures effects == [DidDisconnect, CompletionCalled(1, Some(cancelled))]
  {
    var ws := new WebSocket(url, None);
    ws.Connect(Some(1));
    ws.Disconnect();
    ws.DidCompleteWithError(Some(cancelled));
    effects := ws.effects;
  }

  /** A second connect while the first is in progress is ignored: its completion is never called. */
  method ConnectTwice(url: string) returns (effects: seq<Effect>)
    ensures effects == [CompletionCalled(1, None), DidConnect]
  {
    var ws := new WebSocket(url, None);
    ws.Connect(Some(1));
    ws.Connect(Some(2));
    ws.DidOpen();
    effects := ws.effects;
  }

  /** With a ping message, opening starts the timer and each tick sends the ping through the socket task. */
  method PingAfterOpen(url: string, ping: Message) returns (effects: seq<Effect>)
    ensures effects == [DidConnect, TaskSend(ping), TaskSend(ping)]
  {
    var ws := new WebSocket(url, Some(ping));
    ws.Connect(None);
    ws.DidOpen();
    ws.PingTimerFired();
    ws.PingTimerFired();
    effects := ws.effects;
  }

  /** A failed send tears the session down: the delegate is told once and the ping timer is gone. */
  method SendFailure(url: string, ping: Message, m: Message, e: Error) returns (effects: seq<Effect>, pinging: bool)
    ensures effects == [DidConnect, TaskSend(m), DidDisconnect]
    ensures !pinging
  {
    var ws := new WebSocket(url, Some(ping));
    ws.Connect(None);
    ws.DidOpen();
    ws.Send(m);
    ws.SendCompleted(Some(e));
    ws.Send(m);
    effects, pinging := ws.effects, ws.hasPingTimer;
  }
}
