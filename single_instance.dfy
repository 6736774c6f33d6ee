/** Handing the command line to an already running instance.

    A launched process first re-launches itself detached from the terminal with
    `--wait` added. The waiting process, unless asked for a new instance, connects to the
    local socket of a running instance, sends it the named paths as an `OpenPaths`
    notification and waits for the eight bytes `received`; when it could connect it
    exits whatever the answer. Otherwise it opens the session store and starts the
    application, which listens on the socket itself. The listening side reads messages
    from each connection, passes notifications on to the application and answers every
    message read with `received`.

    Sockets, threads and the 500 ms wait are not modelled: each read, connection and
    timeout is an input. */
module SingleInstance {
  import opened Options
  import opened Session
  import Strings

  type Byte = b: int | 0 <= b < 256

  /** The acknowledgement, `received` in ASCII. */
  const Received: seq<Byte> := [0x72, 0x65, 0x63, 0x65, 0x69, 0x76, 0x65, 0x64]

  /** The size of the buffer the acknowledgement is read into. */
  const ReplyBufferSize := 100

  /** What one read of the reply returned: an error, or the bytes read. */
  datatype ReadResult = ReadFailed | ReadBytes(bytes: seq<Byte>)

  /** Whether `r` can be the result of one read of the reply while `waiting` are the
      bytes the other side has written: an error, or a prefix of them that fits the
      buffer. A read may return fewer bytes than are waiting. */
  predicate PossibleRead(waiting: seq<Byte>, r: ReadResult) {
    r.ReadFailed? || (r.bytes <= waiting && |r.bytes| <= ReplyBufferSize)
  }

  /** The read that returns everything waiting, up to a buffer's worth. */
  function WholeRead(waiting: seq<Byte>): (r: ReadResult)
    ensures PossibleRead(waiting, r) && r.ReadBytes?
    ensures |r.bytes| == if |waiting| <= ReplyBufferSize then |waiting| else ReplyBufferSize
  {
    if |waiting| <= ReplyBufferSize then ReadBytes(waiting) else ReadBytes(waiting[..ReplyBufferSize])
  }

  /** The hand-off is acknowledged only by a read returning exactly `received`. */
  predicate Acknowledged(r: ReadResult) {
    r.ReadBytes? && r.bytes == Received
  }

  /** A read acknowledges only once the whole of `received` has been written, and then
      only when it returns exactly those eight bytes: a read error, a read that stops
      short, or one that also returns more bytes does not. */
  lemma AcknowledgementIsExact(waiting: seq<Byte>, r: ReadResult, k: nat)
    requires PossibleRead(waiting, r) && k < |Received|
    ensures Acknowledged(r) ==> Received <= waiting
    ensures Received <= waiting && r.ReadBytes? && |r.bytes| == |Received| ==> Acknowledged(r)
    ensures r.ReadBytes? && |r.bytes| != |Received| ==> !Acknowledged(r)
    ensures !Acknowledged(ReadFailed)
    ensures PossibleRead(Received, ReadBytes(Received[..k])) && !Acknowledged(ReadBytes(Received[..k]))
    ensures Acknowledged(WholeRead(Received)) && !Acknowledged(WholeRead(Received + Received))
  {
    if r.ReadBytes? && Received <= waiting && |r.bytes| == |Received| {
      assert r.bytes == waiting[..|Received|] == Received;
    }
    assert |Received[..k]| != |Received|;
  }

  /** The notification types the running instance can receive; only `OpenPaths` is
      acted on, the others are not part of this model. */
  datatype CoreNotification = OpenPaths(paths: seq<PathObject>) | OtherNotification(name: string)

  /** The messages of the remote-procedure-call protocol. */
  datatype CoreMessage =
    | Request(requestId: nat)
    | Notification(note: CoreNotification)
    | Response(responseId: nat)
    | ErrorReply(errorId: nat)

  /** The message that hands the named paths over. */
  function HandOffMessage(paths: seq<PathObject>): CoreMessage {
    Notification(OpenPaths(paths))
  }

  datatype HandOffError = SendFailed | NoReplyInTime | NotAcknowledged

  datatype HandOff = HandedOff | HandOffFailed(error: HandOffError)

  /** The client's side of the hand-off: whether sending the message succeeded, and the
      reply read within the time limit (`None` when none came in time). */
  function TryOpen(sent: bool, reply: Option<ReadResult>): (r: HandOff)
    ensures r.HandedOff? <==> sent && reply.Some? && Acknowledged(reply.value)
    ensures !sent ==> r == HandOffFailed(SendFailed)
    ensures sent && reply.None? ==> r == HandOffFailed(NoReplyInTime)
  {
    if !sent then HandOffFailed(SendFailed)
    else if reply.None? then HandOffFailed(NoReplyInTime)
    else if !Acknowledged(reply.value) then HandOffFailed(NotAcknowledged)
    else HandedOff
  }

  /** What one read of the listening side produced: an error, or a decoded message
      (`None` when the read produced no message). */
  datatype Incoming = ReadError | Decoded(message: Option<CoreMessage>)

  datatype ServerAction = Forwarded(note: CoreNotification) | Unhandled | AckWritten

  /** The actions of the listening side on one connection, given the reads it makes in
      order, and whether the application still receives notifications (a forward to an
      application that is gone ends the connection). A read error ends the connection. */
  function Handled(inputs: seq<Incoming>, receiverAlive: bool): seq<ServerAction> {
    if inputs == [] then []
    else
      match inputs[0]
      case ReadError => []
      case Decoded(m) =>
        if m.Some? && m.value.Notification? then
          if receiverAlive then [Forwarded(m.value.note), AckWritten] + Handled(inputs[1..], receiverAlive) else []
        else [Unhandled, AckWritten] + Handled(inputs[1..], receiverAlive)
  }

  /** Serves one connection: reads messages until a read fails or the input ends,
      forwards each notification, and writes `received` after every message. Failures
      to write the acknowledgement are only logged, so they change nothing here. */
  method HandleConnection(inputs: seq<Incoming>, receiverAlive: bool) returns (actions: seq<ServerAction>)
    ensures actions == Handled(inputs, receiverAlive)
  {
    actions := [];
    var i := 0;
    while i < |inputs|
      invariant 0 <= i <= |inputs|
      invariant Handled(inputs, receiverAlive) == actions + Handled(inputs[i..], receiverAlive)
    {
      var incoming := inputs[i];
      HandledStep(inputs, i, receiverAlive);
      if incoming.ReadError? {
        return;
      }
      var m := incoming.message;
      var handled: ServerAction;
      if m.Some? && m.value.Notification? {
        if !receiverAlive {
          return;
        }
        handled := Forwarded(m.value.note);
      } else {
        handled := Unhandled;
      }
      Strings.ConcatAssoc(actions, [handled, AckWritten], Handled(inputs[i + 1..], receiverAlive));
      actions := actions + [handled, AckWritten];
      i := i + 1;
    }
  }

  /** What the actions for the reads from number `i` on begin with. */
  lemma HandledStep(inputs: seq<Incoming>, i: nat, alive: bool)
    requires i < |inputs|
    ensures inputs[i].ReadError? ==> Handled(inputs[i..], alive) == []
    ensures inputs[i].Decoded? ==>
      var m := inputs[i].message;
      Handled(inputs[i..], alive) ==
        if m.Some? && m.value.Notification? then
          (if alive then [Forwarded(m.value.note), AckWritten] + Handled(inputs[i + 1..], alive) else [])
        else [Unhandled, AckWritten] + Handled(inputs[i + 1..], alive)
  {
    assert inputs[i..][0] == inputs[i];
    assert inputs[i..][1..] == inputs[i + 1..];
  }

  /** The notifications among the messages, in order. */
  function Notifications(inputs: seq<Incoming>): seq<CoreNotification> {
    if inputs == [] then []
    else
      var m := if inputs[0].Decoded? then inputs[0].message else None;
      (if m.Some? && m.value.Notification? then [m.value.note] else []) + Notifications(inputs[1..])
  }

  /** The notifications that were forwarded, in order. */
  function ForwardedNotes(actions: seq<ServerAction>): seq<CoreNotification> {
    if actions == [] then []
    else (if actions[0].Forwarded? then [actions[0].note] else []) + ForwardedNotes(actions[1..])
  }

  /** Every message is answered: each forwarded or unhandled message is followed by an
      acknowledgement, so the actions alternate between a message and its answer. */
  lemma {:induction false} EveryMessageAcknowledged(inputs: seq<Incoming>, alive: bool)
    ensures var a := Handled(inputs, alive);
      |a| % 2 == 0 && forall k :: 0 <= k < |a| ==> (a[k] == AckWritten <==> k % 2 == 1)
  {
    if inputs != [] && inputs[0].Decoded? {
      EveryMessageAcknowledged(inputs[1..], alive);
      var rest := Handled(inputs[1..], alive);
      var a := Handled(inputs, alive);
      if a != [] {
        assert a[2..] == rest;
        forall k | 2 <= k < |a| ensures a[k] == AckWritten <==> k % 2 == 1 {
          assert a[k] == rest[k - 2];
        }
      }
    }
  }

  /** Without read errors and with the application listening, every message read is
      answered, and exactly the notifications are forwarded, in their order. */
  lemma {:induction false} ForwardsExactlyNotifications(inputs: seq<Incoming>)
    requires forall k :: 0 <= k < |inputs| ==> inputs[k].Decoded?
    ensures |Handled(inputs, true)| == 2 * |inputs|
    ensures ForwardedNotes(Handled(inputs, true)) == Notifications(inputs)
  {
    if inputs != [] {
      ForwardsExactlyNotifications(inputs[1..]);
      var rest := Handled(inputs[1..], true);
      var m := inputs[0].message;
      var head := if m.Some? && m.value.Notification? then [Forwarded(m.value.note), AckWritten] else [Unhandled, AckWritten];
      assert Handled(inputs, true) == head + rest;
      ForwardedAppend(head, rest);
    }
  }

  lemma {:induction false} ForwardedAppend(a: seq<ServerAction>, b: seq<ServerAction>)
    ensures ForwardedNotes(a + b) == ForwardedNotes(a) + ForwardedNotes(b)
  {
    if a == [] {
      assert a + b == b;
    } else {
      assert (a + b)[0] == a[0];
      assert (a + b)[1..] == a[1..] + b;
      ForwardedAppend(a[1..], b);
    }
  }

  /** Once the application stops receiving, no notification is passed on. */
  lemma {:induction false} NothingForwardedWithoutReceiver(inputs: seq<Incoming>)
    ensures ForwardedNotes(Handled(inputs, false)) == []
  {
    if inputs != [] && inputs[0].Decoded? {
      var m := inputs[0].message;
      if !(m.Some? && m.value.Notification?) {
        NothingForwardedWithoutReceiver(inputs[1..]);
        ForwardedAppend([Unhandled, AckWritten], Handled(inputs[1..], false));
      }
    }
  }

  /** The two sides agree: the listening side passes the handed-off paths to the
      application unchanged and answers with `received`; the client's read `r` of that
      answer completes the hand-off exactly when it returns all eight bytes, as a read
      of the whole answer does, and a short read makes the hand-off fail. */
  lemma HandOffRoundTrip(paths: seq<PathObject>, r: ReadResult)
    requires PossibleRead(Received, r)
    ensures Handled([Decoded(Some(HandOffMessage(paths)))], true) == [Forwarded(OpenPaths(paths)), AckWritten]
    ensures TryOpen(true, Some(r)) == HandedOff <==> r == ReadBytes(Received)
    ensures TryOpen(true, Some(WholeRead(Received))) == HandedOff
  {
    if r.ReadBytes? && |r.bytes| == |Received| {
      assert r.bytes == Received[..|Received|] == Received;
    }
    assert [Decoded(Some(HandOffMessage(paths)))][1..] == [];
  }

  /** The command-line flags the launch depends on. */
  datatype Cli = Cli(wait: bool, newInstance: bool, paths: seq<PathObject>)

  /** How a launch ends. */
  datatype LaunchOutcome =
    | Respawned(program: string, arguments: seq<string>)   // detached copy started; this process returns
    | RespawnFailed                                         // exits with status 1
    | ExistingInstance(handOff: HandOff)                    // handed over (or tried to); returns
    | StoreFailed                                           // the session store could not be opened; exits with status 1
    | AppStarted                                            // windows are created; the socket is listened on

  /** The launch decision. `args` is the process's argument list; `spawned` whether the
      detached copy could be started; `connected` the hand-off result when a running
      instance's socket could be connected to; `storeOpened` whether the session store
      opened. */
  function Launch(args: seq<string>, cli: Cli, spawned: bool, connected: Option<HandOff>, storeOpened: bool): LaunchOutcome {
    if !cli.wait then
      var full := args + ["--wait"];
      if spawned then Respawned(full[0], full[1..]) else RespawnFailed
    else if !cli.newInstance && connected.Some? then ExistingInstance(connected.value)
    else if !storeOpened then StoreFailed
    else AppStarted
  }

  /** The exit status a launch ends with, when it exits explicitly. */
  function ExitStatus(r: LaunchOutcome): Option<int> {
    if r.RespawnFailed? || r.StoreFailed? then Some(1) else None
  }

  /** Windows are created only by a waiting process that is asked for a new instance or
      finds none running; whenever a running instance could be reached, the process
      returns without windows, whatever the hand-off's result. */
  lemma LaunchDecision(args: seq<string>, cli: Cli, spawned: bool, connected: Option<HandOff>, storeOpened: bool)
    ensures var r := Launch(args, cli, spawned, connected, storeOpened);
      (r.AppStarted? <==> cli.wait && (cli.newInstance || connected.None?) && storeOpened)
      && (cli.wait && !cli.newInstance && connected.Some? ==> r == ExistingInstance(connected.value))
      && (ExitStatus(r) == Some(1) <==> (!cli.wait && !spawned) || (cli.wait && (cli.newInstance || connected.None?) && !storeOpened))
  {
  }

  /** The detached copy runs the same program with the same arguments and `--wait`
      added, so it does not detach again. */
  lemma RespawnAddsWait(args: seq<string>, cli: Cli, connected: Option<HandOff>, storeOpened: bool)
    requires |args| >= 1 && !cli.wait
    ensures var r := Launch(args, cli, true, connected, storeOpened);
      r == Respawned(args[0], args[1..] + ["--wait"]) && r.arguments[|r.arguments| - 1] == "--wait"
  {
    assert (args + ["--wait"])[1..] == args[1..] + ["--wait"];
  }
}
