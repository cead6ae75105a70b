/** The chat server of server.py: the handle prompt of __main__, then one
    session per accepted connection, each a handshake (receive the client's
    handle, send the server's) and the turn loop of startChat. Each
    connection's stream is a script of what its receives return; the keyboard
    is the sequence of lines raw_input returns, shared by the handle prompt
    and every session. */
module Server {
  import opened Protocol

  /** What the handshake receive reads of the client's handle. */
  const HANDSHAKE_CAPACITY: nat := 512
  /** What one receive in startChat reads. */
  const CHAT_CAPACITY: nat := 501
  /** Longest reply the operator may send. */
  const MAX_REPLY: nat := 500

  const RUNNING: string := "Server is running.\n"
  const NEW_CONNECTION: string := "New connection created\n"
  const WAIT_NOTICE: string := "Connection closed. Wait for new connection.\n"
  /** The exception a failed receive raises; nothing catches it. */
  const SOCKET_ERROR: string := "socket.error"

  /** What one receive returns: the bytes the client wrote in one send (the
      empty string once the client has closed), or a socket error. */
  datatype Arrival = Data(bytes: string) | Broken

  /** Python's s[0:-1]: everything but the last character, and the empty
      string for the empty string. */
  function Strip(s: string): (r: string)
    ensures |r| == if |s| == 0 then 0 else |s| - 1
    ensures r == s[..|r|]
  {
    if |s| == 0 then s else s[..|s| - 1]
  }

  /** A reply the operator may send framed: 1 to 500 characters, other than
      the sentinel. */
  predicate IsReply(serverH: string, message: string) {
    var text := Unframe(serverH, message);
    text.Some? && Fits(text.value, MAX_REPLY) && text.value != QUIT_WORD
  }

  /** establishHandshake: receive at most 512 bytes, then send the server's
      handle. The stream left for the chat, or None when the receive raised. */
  function Handshake(serverH: string, net: seq<Arrival>): (r: (seq<Event>, Option<seq<Arrival>>))
    ensures r.1.Some? <==> net != [] && net[0].Data?
    ensures r.1.Some? ==>
      && r.0 == [Recv(Received(HANDSHAKE_CAPACITY, net[0].bytes)), Send(serverH)]
      && r.1.value == net[1..]
    ensures net != [] && net[0].Broken? ==> r.0 == [Fatal(SOCKET_ERROR)]
  {
    if net == [] then ([], None)
    else match net[0]
      case Broken => ([Fatal(SOCKET_ERROR)], None)
      case Data(b) => ([Recv(Received(HANDSHAKE_CAPACITY, b)), Send(serverH)], Some(net[1..]))
  }

  /** The turns of startChat: the events, and the keyboard lines left when
      the loop ends by its own break (None when the run stops inside it: a
      socket error, or the stream or the keyboard ran out). */
  function Chat(serverH: string, lines: seq<string>, net: seq<Arrival>): (r: (seq<Event>, Option<seq<string>>))
    ensures r.1.Some? ==> |r.0| >= 2 && (r.0[|r.0| - 1] == Notice(WAIT_NOTICE) ||
                                         r.0[|r.0| - 2..] == [Notice(WAIT_NOTICE), Send(QUIT_WORD)])
    ensures r.1.Some? ==> |r.1.value| <= |lines|
    decreases |net|
  {
    if net == [] then ([], None)
    else match net[0]
      case Broken => ([Fatal(SOCKET_ERROR)], None)
      case Data(b) =>
        var got := Received(CHAT_CAPACITY, b);
        var text := Strip(got);
        if text == "" then ([Recv(got), Notice(WAIT_NOTICE)], Some(lines))
        else
          var (reply, left) := FirstFit(lines, MAX_REPLY);
          if reply.None? then ([Recv(got), Display(text + "\n")], None)
          else if reply.value == QUIT_WORD then
            ([Recv(got), Display(text + "\n"), Notice(WAIT_NOTICE), Send(QUIT_WORD)], Some(left))
          else
            var (more, out) := Chat(serverH, left, net[1..]);
            ([Recv(got), Display(text + "\n"), Send(Frame(serverH, reply.value))] + more, out)
  }

  /** A session that ends by its own break has read the keyboard lines in
      order and leaves exactly the ones it did not read. */
  lemma ChatLeavesUnread(serverH: string, lines: seq<string>, net: seq<Arrival>)
    ensures var left := Chat(serverH, lines, net).1;
      left.Some? ==> |left.value| <= |lines| && left.value == lines[|lines| - |left.value|..]
  {
    var left := Chat(serverH, lines, net).1;
    ChatLeavesTail(serverH, lines, net);
    if left.Some? {
      TailIsSuffix(left.value, lines);
    }
  }

  lemma {:induction false} ChatLeavesTail(serverH: string, lines: seq<string>, net: seq<Arrival>)
    ensures var left := Chat(serverH, lines, net).1;
      left.Some? ==> IsTail(left.value, lines)
    decreases |net|
  {
    var r := Chat(serverH, lines, net).1;
    var after := FirstFit(lines, MAX_REPLY).1;
    ChatKeyboardStep(serverH, lines, net);
    if r.Some? {
      FirstFitLeavesTail(lines, MAX_REPLY);
      if r.value != lines && r.value != after {
        ChatLeavesTail(serverH, after, net[1..]);
        TailOfTail(r.value, after, lines);
      }
    }
  }

  /** Where the keyboard stands when a chat ends by its own break: where it
      was (the client closed), right after the reply (the sentinel), or
      wherever the rest of the chat leaves it. */
  lemma ChatKeyboardStep(serverH: string, lines: seq<string>, net: seq<Arrival>)
    ensures var r := Chat(serverH, lines, net).1;
      var after := FirstFit(lines, MAX_REPLY).1;
      r.Some? ==> net != [] && (r.value == lines || r.value == after || r == Chat(serverH, after, net[1..]).1)
  {
    if net != [] && net[0].Data? {
      var got := Received(CHAT_CAPACITY, net[0].bytes);
      var (reply, left) := FirstFit(lines, MAX_REPLY);
      var r := Chat(serverH, lines, net).1;
      if Strip(got) == "" {
        assert r == Some(lines);
      } else if reply.None? {
        assert r.None?;
      } else if reply.value == QUIT_WORD {
        assert r == Some(left);
      } else {
        assert r == Chat(serverH, left, net[1..]).1;
      }
    }
  }

  /** One accepted connection: the notice, the handshake, the chat. */
  function Session(serverH: string, lines: seq<string>, net: seq<Arrival>): (r: (seq<Event>, Option<seq<string>>))
    ensures r.0 != [] && r.0[0] == Notice(NEW_CONNECTION)
    ensures r.1.Some? ==> net != [] && net[0].Data?
    ensures r.1.Some? ==> |r.1.value| <= |lines|
    ensures r.1.Some? ==> r.1.value == lines[|lines| - |r.1.value|..]
  {
    var (shake, rest) := Handshake(serverH, net);
    if rest.None? then ([Notice(NEW_CONNECTION)] + shake, None)
    else
      ChatLeavesUnread(serverH, lines, rest.value);
      var (chat, left) := Chat(serverH, lines, rest.value);
      ([Notice(NEW_CONNECTION)] + shake + chat, left)
  }

  /** The accept loop over the connections, one after the other, while each
      session ends by its own break. */
  function Serve(serverH: string, lines: seq<string>, conns: seq<seq<Arrival>>): (r: seq<Event>)
    ensures r == [] <==> conns == []
    ensures r != [] ==> r[0] == Notice(NEW_CONNECTION)
    decreases |conns|
  {
    if conns == [] then []
    else
      var (events, left) := Session(serverH, lines, conns[0]);
      if left.None? then events
      else events + Serve(serverH, left.value, conns[1..])
  }

  /** __main__: the handle prompt, then the accept loop. */
  function ServerRun(lines: seq<string>, conns: seq<seq<Arrival>>): (r: seq<Event>)
    ensures r == [] <==> forall j :: 0 <= j < |lines| ==> !Fits(lines[j], MAX_HANDLE)
    ensures r != [] ==> r[0] == Notice(RUNNING) && (conns != [] ==> |r| >= 2 && r[1] == Notice(NEW_CONNECTION))
  {
    var (handle, rest) := FirstFit(lines, MAX_HANDLE);
    if handle.None? then [] else [Notice(RUNNING)] + Serve(handle.value, rest, conns)
  }

  /** establishHandshake in its imperative form; Handshake is its
      specification, and the handshake's properties are stated there. */
  method EstablishHandshake(newSConnection: seq<Arrival>, sHandle: string)
    returns (events: seq<Event>, rest: Option<seq<Arrival>>)
    ensures (events, rest) == Handshake(sHandle, newSConnection)
  {
    if newSConnection == [] {
      return [], None;
    }
    match newSConnection[0]
    case Broken =>
      return [Fatal(SOCKET_ERROR)], None;
    case Data(b) =>
      var cHandle := Received(HANDSHAKE_CAPACITY, b);
      events := [Recv(cHandle), Send(sHandle)];
      rest := Some(newSConnection[1..]);
  }

  /** startChat: receive, strip, stop on empty, print, re-prompt for a reply
      of 1 to 500 characters, then send the bare sentinel and stop, or send
      the framed reply and go round again. */
  method StartChat(serverH: string, lines: seq<string>, net: seq<Arrival>)
    returns (trace: seq<Event>, left: Option<seq<string>>)
    ensures (trace, left) == Chat(serverH, lines, net)
  {
    trace := [];
    var keys, pending := lines, net;
    while true
      invariant trace + Chat(serverH, keys, pending).0 == Chat(serverH, lines, net).0
      invariant Chat(serverH, keys, pending).1 == Chat(serverH, lines, net).1
      decreases |pending|
    {
      if pending == [] {
        assert trace + [] == trace;
        return trace, None;
      }
      if pending[0].Broken? {
        return trace + [Fatal(SOCKET_ERROR)], None;
      }
      var got := Received(CHAT_CAPACITY, pending[0].bytes);
      var charsReceived := Strip(got);
      if charsReceived == "" {
        return trace + [Recv(got), Notice(WAIT_NOTICE)], Some(keys);
      }
      var shown := Display(charsReceived + "\n");
      var charsWritten, rest := Reprompt(keys, MAX_REPLY);
      if charsWritten.None? {
        return trace + [Recv(got), shown], None;
      }
      if charsWritten.value == QUIT_WORD {
        return trace + [Recv(got), shown, Notice(WAIT_NOTICE), Send(QUIT_WORD)], Some(rest);
      }
      var step := [Recv(got), shown, Send(Frame(serverH, charsWritten.value))];
      AppendAssoc(trace, step, Chat(serverH, rest, pending[1..]).0);
      trace := trace + step;
      keys, pending := rest, pending[1..];
    }
  }

  /** __main__: prompt for a handle of 1 to 10 characters, then accept
      connections one at a time, each served by a handshake and a chat. */
  method RunServer(lines: seq<string>, conns: seq<seq<Arrival>>) returns (trace: seq<Event>)
    ensures trace == ServerRun(lines, conns)
  {
    var serverHandle, keys := Reprompt(lines, MAX_HANDLE);
    if serverHandle.None? {
      return [];
    }
    var sh := serverHandle.value;
    trace := [Notice(RUNNING)];
    var pending := conns;
    while true
      invariant trace + Serve(sh, keys, pending) == ServerRun(lines, conns)
      decreases |pending|
    {
      if pending == [] {
        return;
      }
      var shake, rest := EstablishHandshake(pending[0], sh);
      var opening := [Notice(NEW_CONNECTION)] + shake;
      if rest.None? {
        return trace + opening;
      }
      var chat, left := StartChat(sh, keys, rest.value);
      if left.None? {
        return trace + (opening + chat);
      }
      AppendAssoc(trace, opening + chat, Serve(sh, left.value, pending[1..]));
      trace := trace + (opening + chat);
      keys, pending := left.value, pending[1..];
    }
  }

  // ---------------------------------------------------------------------
  // What every server session looks like

  /** The turns of startChat: each one receives at most 501 bytes; one or
      none means the client is gone and the session ends with the notice;
      otherwise the bytes less their last one are printed, and the reply is
      the bare sentinel ending the session, or a framed reply and the next
      turn (or the keyboard ran out). */
  predicate ChatShape(serverH: string, t: seq<Event>)
    decreases |t|
  {
    || t == []
    || t == [Fatal(SOCKET_ERROR)]
    || (|t| == 2 && t[0].Recv? && |t[0].bytes| <= 1 && t[1] == Notice(WAIT_NOTICE))
    || (&& |t| >= 2 && t[0].Recv? && 2 <= |t[0].bytes| <= CHAT_CAPACITY
        && t[1] == Display(Strip(t[0].bytes) + "\n")
        && (|| |t| == 2
            || t[2..] == [Notice(WAIT_NOTICE), Send(QUIT_WORD)]
            || (|t| >= 3 && t[2].Send? && IsReply(serverH, t[2].bytes) && ChatShape(serverH, t[3..]))))
  }

  lemma {:induction false} ChatWellShaped(serverH: string, lines: seq<string>, net: seq<Arrival>)
    ensures ChatShape(serverH, Chat(serverH, lines, net).0)
    decreases |net|
  {
    var t := Chat(serverH, lines, net).0;
    if net != [] && net[0].Data? {
      var got := Received(CHAT_CAPACITY, net[0].bytes);
      var (reply, left) := FirstFit(lines, MAX_REPLY);
      if Strip(got) == "" {
        assert t == [Recv(got), Notice(WAIT_NOTICE)];
      } else if reply.None? {
        assert t == [Recv(got), Display(Strip(got) + "\n")];
      } else if reply.value == QUIT_WORD {
        assert t == [Recv(got), Display(Strip(got) + "\n"), Notice(WAIT_NOTICE), Send(QUIT_WORD)];
        assert t[2..] == [Notice(WAIT_NOTICE), Send(QUIT_WORD)];
      } else {
        var more := Chat(serverH, left, net[1..]).0;
        assert t == [Recv(got), Display(Strip(got) + "\n"), Send(Frame(serverH, reply.value))] + more;
        ChatWellShaped(serverH, left, net[1..]);
        UnframeFrame(serverH, reply.value);
        assert t[3..] == more;
        assert IsReply(serverH, t[2].bytes);
      }
    }
  }

  /** The wire traffic of a turn that sends and goes on: its receive, its
      send, then the rest. */
  lemma WireOfTurn(t: seq<Event>)
    requires |t| >= 3 && t[0].Recv? && t[1].Display? && t[2].Send?
    ensures Wire(t) == [t[0], t[2]] + Wire(t[3..])
  {
    assert Wire(t) == [t[0]] + Wire(t[1..]);
    assert t[1..][1..] == t[2..];
    assert Wire(t[2..]) == [t[2]] + Wire(t[2..][1..]);
    assert t[2..][1..] == t[3..];
  }

  /** The last turn of a chat alternates on its own: a receive, and at most
      the bare sentinel after it. */
  lemma LastTurnAlternates(serverH: string, t: seq<Event>)
    requires ChatShape(serverH, t)
    requires |t| < 3 || t[2..] == [Notice(WAIT_NOTICE), Send(QUIT_WORD)]
    ensures StrictlyAlternating(Wire(t), false)
  {
    if |t| == 4 {
      assert t[1..][1..] == t[2..];
      assert Wire(t) == [t[0]] + Wire(t[2..]);
      assert Wire(t[2..]) == [t[3]];
      AlternatingPrepend(t[0], t[3], [], false);
      assert Wire(t) == [t[0], t[3]] + [];
    } else if |t| == 2 {
      assert Wire(t) == [t[0]] + Wire(t[1..]);
      WireOfSilent(t[1..]);
    } else {
      WireOfSilent(t);
    }
  }

  /** Strict alternation the other way round: every turn receives before
      it sends, and sends at most once. */
  lemma {:induction false} ChatAlternates(serverH: string, t: seq<Event>)
    requires ChatShape(serverH, t)
    ensures StrictlyAlternating(Wire(t), false)
    decreases |t|
  {
    if |t| >= 3 && t[2..] != [Notice(WAIT_NOTICE), Send(QUIT_WORD)] {
      WireOfTurn(t);
      ChatAlternates(serverH, t[3..]);
      AlternatingPrepend(t[0], t[2], Wire(t[3..]), false);
    } else {
      LastTurnAlternates(serverH, t);
    }
  }

  /** Nothing is sent but a framed reply of 1 to 500 characters, or the
      bare sentinel as the session's last event, after the notice. */
  lemma {:induction false} SendsAreReplies(serverH: string, t: seq<Event>)
    requires ChatShape(serverH, t)
    ensures forall i :: 0 <= i < |t| && t[i].Send? ==>
      || IsReply(serverH, t[i].bytes)
      || (t[i].bytes == QUIT_WORD && i == |t| - 1 && 0 < i && t[i - 1] == Notice(WAIT_NOTICE))
    decreases |t|
  {
    if |t| >= 3 && |t[0].bytes| >= 2 && t[2..] != [Notice(WAIT_NOTICE), Send(QUIT_WORD)] {
      var u := t[3..];
      SendsAreReplies(serverH, u);
      forall i | 3 <= i < |t| && t[i].Send?
        ensures || IsReply(serverH, t[i].bytes)
                || (t[i].bytes == QUIT_WORD && i == |t| - 1 && t[i - 1] == Notice(WAIT_NOTICE))
      {
        assert t[i] == u[i - 3];
        if i > 3 {
          assert t[i - 1] == u[i - 4];
        }
      }
    } else if |t| == 4 {
      assert t[2] == t[2..][0] && t[3] == t[2..][1];
    }
  }

  /** What follows a receive: one byte or none is the client's close and is
      answered by the notice alone; anything longer is printed without its
      last byte. */
  lemma {:induction false} ReceiptsAnswered(serverH: string, t: seq<Event>)
    requires ChatShape(serverH, t)
    ensures forall i :: 0 <= i < |t| && t[i].Recv? ==> |t[i].bytes| <= CHAT_CAPACITY
    ensures forall i :: 0 <= i < |t| && t[i].Recv? && |t[i].bytes| <= 1 ==>
      t[i + 1..] == [Notice(WAIT_NOTICE)]
    ensures forall i :: 0 <= i < |t| - 1 && t[i].Recv? && |t[i].bytes| >= 2 ==>
      t[i + 1] == Display(Strip(t[i].bytes) + "\n") && Strip(t[i].bytes) != ""
    ensures |t| > 0 ==> !t[|t| - 1].Recv?
    decreases |t|
  {
    if |t| >= 3 && |t[0].bytes| >= 2 && t[2..] != [Notice(WAIT_NOTICE), Send(QUIT_WORD)] {
      var u := t[3..];
      ReceiptsAnswered(serverH, u);
      forall i | 3 <= i < |t| && t[i].Recv?
        ensures |t[i].bytes| <= CHAT_CAPACITY
        ensures |t[i].bytes| <= 1 ==> t[i + 1..] == [Notice(WAIT_NOTICE)]
        ensures i < |t| - 1 && |t[i].bytes| >= 2 ==>
          t[i + 1] == Display(Strip(t[i].bytes) + "\n") && Strip(t[i].bytes) != ""
      {
        assert t[i] == u[i - 3];
        assert t[i + 1..] == u[i - 2..];
        if i < |t| - 1 {
          assert t[i + 1] == u[i - 2];
        }
      }
      if u != [] {
        assert t[|t| - 1] == u[|u| - 1];
      }
    } else if |t| == 4 {
      assert t[2] == t[2..][0] && t[3] == t[2..][1];
    }
  }

  /** A chat prints neither of the notices that open the server and a
      connection. */
  lemma {:induction false} ChatOpensNothing(serverH: string, t: seq<Event>)
    requires ChatShape(serverH, t)
    ensures Notice(NEW_CONNECTION) !in t && Notice(RUNNING) !in t
    decreases |t|
  {
    if |t| >= 3 && |t[0].bytes| >= 2 && t[2..] != [Notice(WAIT_NOTICE), Send(QUIT_WORD)] {
      ChatOpensNothing(serverH, t[3..]);
      assert t == t[..3] + t[3..];
      assert t[1] != Notice(NEW_CONNECTION) && t[1] != Notice(RUNNING);
    } else if |t| == 4 {
      assert t[2] == t[2..][0] && t[3] == t[2..][1];
    }
  }

  /** A session prints the new-connection notice once, and never the
      running notice. */
  lemma SessionOpensOnce(serverH: string, lines: seq<string>, net: seq<Arrival>)
    ensures var events := Session(serverH, lines, net).0;
      multiset(events)[Notice(NEW_CONNECTION)] == 1 && Notice(RUNNING) !in events
  {
    var events := Session(serverH, lines, net).0;
    var (shake, rest) := Handshake(serverH, net);
    var opening := [Notice(NEW_CONNECTION)] + shake;
    assert multiset(opening)[Notice(NEW_CONNECTION)] == 1 && Notice(RUNNING) !in opening by {
      assert forall i :: 0 <= i < |shake| ==> !shake[i].Notice?;
    }
    if rest.Some? {
      var chat := Chat(serverH, lines, rest.value).0;
      ChatWellShaped(serverH, lines, rest.value);
      ChatOpensNothing(serverH, chat);
      assert events == opening + chat;
    }
  }

  /** The accept loop opens each connection it serves with one new-connection
      notice, so there are no more of them than connections, and the
      running notice never comes again. */
  lemma {:induction false} ServeOpensEachConnection(serverH: string, lines: seq<string>, conns: seq<seq<Arrival>>)
    ensures multiset(Serve(serverH, lines, conns))[Notice(NEW_CONNECTION)] <= |conns|
    ensures Notice(RUNNING) !in Serve(serverH, lines, conns)
    decreases |conns|
  {
    if conns != [] {
      var (events, left) := Session(serverH, lines, conns[0]);
      SessionOpensOnce(serverH, lines, conns[0]);
      if left.Some? {
        ServeOpensEachConnection(serverH, left.value, conns[1..]);
        assert Serve(serverH, lines, conns) == events + Serve(serverH, left.value, conns[1..]);
      }
    }
  }

  /** A server that got a handle announces that it runs exactly once, first. */
  lemma ServerRunAnnouncesOnce(lines: seq<string>, conns: seq<seq<Arrival>>)
    ensures var r := ServerRun(lines, conns);
      r != [] ==> multiset(r)[Notice(RUNNING)] == 1
  {
    var (handle, rest) := FirstFit(lines, MAX_HANDLE);
    if handle.Some? {
      ServeOpensEachConnection(handle.value, rest, conns);
    }
  }

  /** A whole session receives first: the client's handle, then the server's
      handle goes out, then the chat, alternating throughout. */
  lemma SessionAlternates(serverH: string, lines: seq<string>, net: seq<Arrival>)
    ensures var t := Session(serverH, lines, net).0;
      && t[0] == Notice(NEW_CONNECTION)
      && (|t| >= 3 && t[2].Send? ==> t[1].Recv? && t[2] == Send(serverH))
      && StrictlyAlternating(Wire(t), false)
  {
    var t := Session(serverH, lines, net).0;
    var (shake, rest) := Handshake(serverH, net);
    var opening := [Notice(NEW_CONNECTION)] + shake;
    if rest.Some? {
      var chat := Chat(serverH, lines, rest.value).0;
      ChatWellShaped(serverH, lines, rest.value);
      ChatAlternates(serverH, chat);
      assert Wire(opening) == [shake[0], shake[1]] by {
        assert Wire(opening) == Wire(opening[1..]);
        assert opening[1..] == shake;
        assert Wire(shake) == [shake[0]] + Wire(shake[1..]);
        assert Wire(shake[1..]) == [shake[1]] + Wire(shake[1..][1..]);
        assert shake[1..][1..] == [];
      }
      WireAppend(opening, chat);
      AlternatingPrepend(shake[0], shake[1], Wire(chat), false);
    } else {
      WireOfSilent(t);
    }
  }
}
