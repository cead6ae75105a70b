/** The chat client of client.c: the handle prompt of main, the handshake
    (send own handle, then one receive), and the turn loop of startChat over
    its three fixed-size buffers. The stream is given as a script of
    exchanges; the keyboard as the words scanf reads for the handle and the
    character stream fgets reads afterwards. */
module Client {
  import opened Protocol
  import opened CString

  /** `input` and `output` in startChat. */
  const BUFFER_SIZE: nat := 500
  /** `prependedInput` in startChat. */
  const ASSEMBLY_SIZE: nat := 512
  /** What the handshake receive reads of the server's handle. */
  const HANDSHAKE_CAPACITY: nat := 10

  /** The local sentinel: the line "\quit" as fgets stores it. */
  const QUIT_LINE: string := "\\quit\n"

  const SERVER_CLOSED: string := "Server closed connection.\n"
  const CONNECTION_CLOSED: string := "Connection has been closed.\n"
  const HANDSHAKE_SEND_ERROR: string := "CLIENT: ERROR writing to socket"
  const HANDSHAKE_RECV_ERROR: string := "CLIENT: ERROR reading from socket"
  const CHAT_SEND_ERROR: string := "Error occurred. Message not sent.\n"
  const CHAT_RECV_ERROR: string := "Error occurred. Message not received.\n"

  /** How one send followed by one receive turns out: the send fails, or it
      succeeds and the receive fails, or both succeed and the receive
      delivers what the peer wrote in one send. */
  datatype Exchange = Reply(payload: string) | SendError | RecvError

  /** The handshake's events, the server handle it learned (None when it
      did not complete), and the exchanges left for the chat. */
  datatype Shake = Shake(events: seq<Event>, remote: Option<string>, rest: seq<Exchange>)

  /** establishHandshake: send the handle, then receive at most 10 bytes. */
  function Handshake(handle: string, net: seq<Exchange>): (r: Shake)
    ensures r.remote.Some? ==>
      && net != [] && net[0].Reply?
      && r.events == [Send(handle), Recv(r.remote.value)]
      && |r.remote.value| <= HANDSHAKE_CAPACITY
      && |r.remote.value| <= |net[0].payload|
      && r.remote.value == net[0].payload[..|r.remote.value|]
      && r.rest == net[1..]
    ensures net != [] && !net[0].Reply? ==>
      r.remote.None? && r.events != [] && r.events[|r.events| - 1].Fatal?
    ensures forall i :: 0 <= i < |r.events| && r.events[i].Recv? ==> i == 1 && r.events[0] == Send(handle)
  {
    if net == [] then Shake([], None, [])
    else match net[0]
      case SendError => Shake([Fatal(HANDSHAKE_SEND_ERROR)], None, [])
      case RecvError => Shake([Send(handle), Fatal(HANDSHAKE_RECV_ERROR)], None, [])
      case Reply(p) =>
        var got := Received(HANDSHAKE_CAPACITY, p);
        Shake([Send(handle), Recv(got)], Some(got), net[1..])
  }

  /** What the input buffer holds after one fgets, and the stream left:
      at end of input the buffer keeps what it `held`. */
  function ReadLine(held: string, stdin: string): (r: (string, string))
    ensures |held| < BUFFER_SIZE ==> |r.0| < BUFFER_SIZE
    ensures NUL !in held ==> NUL !in r.0
    ensures stdin == [] ==> r == (held, [])
    ensures stdin != [] ==> |r.1| < |stdin|
  {
    if stdin == [] then (held, [])
    else
      var n := LineLength(stdin, BUFFER_SIZE - 1);
      (CStr(stdin[..n]), stdin[n..])
  }

  /** The turns of startChat's loop, from a state where the input buffer
      holds `held` and `stdin` is still unread. */
  function Turns(handle: string, held: string, stdin: string, net: seq<Exchange>): (r: seq<Event>)
    ensures r == [] <==> ReadLine(held, stdin).0 != QUIT_LINE && net == []
    ensures r != [] ==> r[0].Send? || r[0] == Close || r[0].Fatal?
    decreases |net|
  {
    var (line, rest) := ReadLine(held, stdin);
    if line == QUIT_LINE then [Close, Notice(CONNECTION_CLOSED)]
    else if net == [] then []
    else
      var message := Frame(handle, line);
      match net[0]
      case SendError => [Fatal(CHAT_SEND_ERROR)]
      case RecvError => [Send(message), Fatal(CHAT_RECV_ERROR)]
      case Reply(p) =>
        var got := Received(BUFFER_SIZE, p);
        if CStr(got) == QUIT_WORD then
          [Send(message), Recv(got), Notice(SERVER_CLOSED), Close, Notice(CONNECTION_CLOSED)]
        else
          [Send(message), Recv(got), Display(CStr(got) + "\n")] + Turns(handle, "", rest, net[1..])
  }

  /** startChat: one fgets to clear the line scanf left, then the turns. */
  function ChatTrace(handle: string, stdin: string, net: seq<Exchange>): (r: seq<Event>)
    ensures net == [] ==> r == [] || r == [Close, Notice(CONNECTION_CLOSED)]
    ensures r != [] ==> r[0].Send? || r[0] == Close || r[0].Fatal?
  {
    var (held, rest) := ReadLine("", stdin);
    Turns(handle, held, rest, net)
  }

  /** The handles the prompt loop sees: what strlen measures of each word
      scanf stores. */
  function Tokens(words: seq<string>): (r: seq<string>)
    ensures |r| == |words|
    ensures forall i :: 0 <= i < |r| ==> r[i] == CStr(words[i]) && NUL !in r[i]
  {
    seq(|words|, i requires 0 <= i < |words| => CStr(words[i]))
  }

  /** main: the handle prompt, the handshake, the chat. */
  function Run(words: seq<string>, stdin: string, net: seq<Exchange>): (r: seq<Event>)
    ensures r == [] <==> net == [] || forall j :: 0 <= j < |words| ==> !Fits(CStr(words[j]), MAX_HANDLE)
    ensures r != [] ==> r[0].Fatal? || (r[0].Send? && Fits(r[0].bytes, MAX_HANDLE) && NUL !in r[0].bytes)
  {
    var handle := FirstFit(Tokens(words), MAX_HANDLE).0;
    if handle.None? then []
    else
      var shake := Handshake(handle.value, net);
      if shake.remote.None? then shake.events
      else shake.events + ChatTrace(handle.value, stdin, shake.rest)
  }

  /** establishHandshake in its imperative form; Handshake is its
      specification, and the handshake's properties are stated there. */
  method EstablishHandshake(handle: string, net: seq<Exchange>)
    returns (events: seq<Event>, serverHandle: Option<string>, rest: seq<Exchange>)
    ensures Shake(events, serverHandle, rest) == Handshake(handle, net)
  {
    if net == [] {
      return [], None, [];
    }
    events := [Send(handle)];
    match net[0]
    case SendError =>
      return [Fatal(HANDSHAKE_SEND_ERROR)], None, [];
    case RecvError =>
      return events + [Fatal(HANDSHAKE_RECV_ERROR)], None, [];
    case Reply(p) =>
      var got := Received(HANDSHAKE_CAPACITY, p);
      events := events + [Recv(got)];
      serverHandle, rest := Some(got), net[1..];
  }

  /** The three strcat calls that build the outgoing chat line in the
      cleared `prepended`; the bound on handle and line keeps it inside the
      512-byte buffer. */
  method Assemble(prepended: array<char>, handle: string, line: string) returns (message: string)
    requires prepended.Length == ASSEMBLY_SIZE && CStr(prepended[..]) == ""
    requires ValidHandle(handle) && NUL !in handle
    requires |line| < BUFFER_SIZE && NUL !in line
    modifies prepended
    ensures message == Frame(handle, line) && CStr(prepended[..]) == message
    ensures |message| < ASSEMBLY_SIZE
  {
    StrCat(prepended, handle);
    StrCat(prepended, SEPARATOR);
    StrCat(prepended, line);
    message := CStr(prepended[..]);
  }

  /** recv into the cleared `output`: the bytes `got` land at its front, and
      the C string it then holds is returned. */
  method ReceiveInto(output: array<char>, got: string) returns (shown: string)
    requires |got| <= output.Length
    requires forall j :: 0 <= j < output.Length ==> output[j] == NUL
    modifies output
    ensures shown == CStr(got) && CStr(output[..]) == shown
  {
    Put(output, 0, got);
    CStrOverZeros(output[..], got);
    shown := CStr(output[..]);
  }

  /** How one turn of startChat's loop ends: on to the next turn, out of the
      loop (the stream is closed next), or the run stops there (a fatal
      transport error, or the stream script ran out). */
  datatype TurnEnd = NextTurn | LeaveLoop | Halt

  /** The buffers of startChat as every turn finds them: the right sizes,
      three distinct arrays, `input` holding a C string that fits it, and
      `prepended` and `output` cleared. */
  ghost predicate Ready(input: array<char>, prepended: array<char>, output: array<char>)
    reads input, prepended, output
  {
    && input.Length == BUFFER_SIZE && prepended.Length == ASSEMBLY_SIZE && output.Length == BUFFER_SIZE
    && input != prepended && input != output && prepended != output
    && |CStr(input[..])| < BUFFER_SIZE
    && CStr(prepended[..]) == ""
    && forall j :: 0 <= j < output.Length ==> output[j] == NUL
  }

  /** One pass of startChat's loop body over the three buffers: fgets into
      `input`, the local sentinel test, strcat of handle, separator and line
      into `prepended`, one send, one receive into `output`, the remote
      sentinel test, and the memset of all three buffers. */
  method Turn(handle: string, input: array<char>, prepended: array<char>, output: array<char>,
              ghost held: string, unread: string, pending: seq<Exchange>)
    returns (events: seq<Event>, end: TurnEnd, left: string)
    requires ValidHandle(handle) && NUL !in handle
    requires Ready(input, prepended, output) && CStr(input[..]) == held
    modifies input, prepended, output
    ensures end == Halt ==> events == Turns(handle, held, unread, pending)
    ensures end == LeaveLoop ==>
      events + [Close, Notice(CONNECTION_CLOSED)] == Turns(handle, held, unread, pending)
    ensures end == NextTurn ==>
      && pending != []
      && events + Turns(handle, "", left, pending[1..]) == Turns(handle, held, unread, pending)
      && Ready(input, prepended, output) && CStr(input[..]) == ""
  {
    left := Fgets(input, unread);
    var line := CStr(input[..]);
    assert (line, left) == ReadLine(held, unread);
    if line == QUIT_LINE {
      return [], LeaveLoop, left;
    }
    if pending == [] {
      return [], Halt, left;
    }
    var message := Assemble(prepended, handle, line);
    if pending[0].SendError? {
      return [Fatal(CHAT_SEND_ERROR)], Halt, left;
    }
    if pending[0].RecvError? {
      return [Send(message), Fatal(CHAT_RECV_ERROR)], Halt, left;
    }
    var got := Received(BUFFER_SIZE, pending[0].payload);
    var shown := ReceiveInto(output, got);
    if shown == QUIT_WORD {
      return [Send(message), Recv(got), Notice(SERVER_CLOSED)], LeaveLoop, left;
    }
    events := [Send(message), Recv(got), Display(shown + "\n")];
    end := NextTurn;
    Memset(input);
    Memset(output);
    Memset(prepended);
  }

  /** startChat: three zeroed buffers, one fgets to clear the line scanf
      left, the turns, then close and the closing notice. */
  method StartChat(handle: string, stdin: string, net: seq<Exchange>) returns (trace: seq<Event>)
    requires ValidHandle(handle) && NUL !in handle
    ensures trace == ChatTrace(handle, stdin, net)
  {
    var input := new char[BUFFER_SIZE];
    var prepended := new char[ASSEMBLY_SIZE];
    var output := new char[BUFFER_SIZE];
    Memset(input);
    Memset(output);
    Memset(prepended);
    var unread := Fgets(input, stdin);
    ghost var held := CStr(input[..]);
    assert (held, unread) == ReadLine("", stdin);
    var pending := net;
    trace := [];
    while true
      invariant Ready(input, prepended, output) && CStr(input[..]) == held
      invariant trace + Turns(handle, held, unread, pending) == ChatTrace(handle, stdin, net)
      decreases |pending|
    {
      var events, end, left := Turn(handle, input, prepended, output, held, unread, pending);
      if end == NextTurn {
        AppendAssoc(trace, events, Turns(handle, "", left, pending[1..]));
      } else if end == LeaveLoop {
        AppendAssoc(trace, events, [Close, Notice(CONNECTION_CLOSED)]);
      }
      trace := trace + events;
      if end == LeaveLoop {
        break;
      }
      if end == Halt {
        return;
      }
      held, unread, pending := "", left, pending[1..];
    }
    trace := trace + [Close, Notice(CONNECTION_CLOSED)];
  }

  /** main from the handle prompt on: re-prompt until a handle of 1 to 10
      characters, the handshake, then the chat. */
  method RunClient(words: seq<string>, stdin: string, net: seq<Exchange>) returns (trace: seq<Event>)
    ensures trace == Run(words, stdin, net)
  {
    var handle, _ := Reprompt(Tokens(words), MAX_HANDLE);
    if handle.None? {
      return [];
    }
    var events, serverHandle, rest := EstablishHandshake(handle.value, net);
    trace := events;
    if serverHandle.None? {
      return;
    }
    var chat := StartChat(handle.value, stdin, rest);
    trace := trace + chat;
  }

  // ---------------------------------------------------------------------
  // What every client trace looks like

  /** A chat line this client may send: its own handle, the separator, and
      what fgets stored, which fits the 500-byte input buffer, has no NUL,
      and is not the local sentinel. */
  predicate IsChatLine(handle: string, message: string) {
    var text := Unframe(handle, message);
    text.Some? && |text.value| < BUFFER_SIZE && NUL !in text.value && text.value != QUIT_LINE
  }

  /** The turns of startChat, one after the other, ending in exactly one way:
      the scripts ran out, the local sentinel (close with nothing sent), a
      failed send, a failed receive, or the remote sentinel. A turn that goes
      on sends one chat line, receives at most 500 bytes and displays them. */
  predicate TurnsShape(handle: string, t: seq<Event>)
    decreases |t|
  {
    || t == []
    || t == [Close, Notice(CONNECTION_CLOSED)]
    || t == [Fatal(CHAT_SEND_ERROR)]
    || (|t| == 2 && t[0].Send? && IsChatLine(handle, t[0].bytes) && t[1] == Fatal(CHAT_RECV_ERROR))
    || (&& |t| >= 3 && t[0].Send? && IsChatLine(handle, t[0].bytes)
        && t[1].Recv? && |t[1].bytes| <= BUFFER_SIZE
        && if CStr(t[1].bytes) == QUIT_WORD then
             t[2..] == [Notice(SERVER_CLOSED), Close, Notice(CONNECTION_CLOSED)]
           else
             t[2] == Display(CStr(t[1].bytes) + "\n") && TurnsShape(handle, t[3..]))
  }

  /** Every run of the turn loop has that shape. */
  lemma {:induction false} TurnsWellShaped(handle: string, held: string, stdin: string, net: seq<Exchange>)
    requires |held| < BUFFER_SIZE && NUL !in held
    ensures TurnsShape(handle, Turns(handle, held, stdin, net))
    decreases |net|
  {
    var (line, rest) := ReadLine(held, stdin);
    if line != QUIT_LINE && net != [] {
      UnframeFrame(handle, line);
      if net[0].Reply? {
        var got := Received(BUFFER_SIZE, net[0].payload);
        if CStr(got) != QUIT_WORD {
          TurnsWellShaped(handle, "", rest, net[1..]);
          var t := Turns(handle, held, stdin, net);
          assert t[3..] == Turns(handle, "", rest, net[1..]);
        }
      }
    }
  }

  lemma ChatWellShaped(handle: string, stdin: string, net: seq<Exchange>)
    ensures TurnsShape(handle, ChatTrace(handle, stdin, net))
  {
    var (held, rest) := ReadLine("", stdin);
    TurnsWellShaped(handle, held, rest, net);
  }

  /** Strict alternation: in startChat the wire carries send, receive, send,
      receive, ... and never two of a kind in a row. */
  lemma {:induction false} TurnsAlternate(handle: string, t: seq<Event>)
    requires TurnsShape(handle, t)
    ensures StrictlyAlternating(Wire(t), true)
    decreases |t|
  {
    if |t| >= 3 {
      var w := Wire(t[2..]);
      assert Wire(t) == [t[0], t[1]] + w by {
        assert Wire(t) == [t[0]] + Wire(t[1..]);
        assert t[1..][1..] == t[2..];
      }
      if CStr(t[1].bytes) == QUIT_WORD {
        WireOfSilent(t[2..]);
        assert StrictlyAlternating(w, true);
      } else {
        assert w == Wire(t[3..]) by {
          assert t[2..][1..] == t[3..];
        }
        TurnsAlternate(handle, t[3..]);
      }
      AlternatingPrepend(t[0], t[1], w, true);
    } else if |t| == 2 && t[0].Send? {
      assert Wire(t) == [t[0]] + Wire(t[1..]);
      WireOfSilent(t[1..]);
      assert StrictlyAlternating(Wire(t), true);
    } else {
      WireOfSilent(t);
      assert StrictlyAlternating(Wire(t), true);
    }
  }

  /** Every chat line sent is the user's own handle, "> " and a NUL-free
      line that is not the sentinel, and it fits the 512-byte buffer it was
      assembled in. */
  lemma {:induction false} SendsAreChatLines(handle: string, t: seq<Event>)
    requires ValidHandle(handle)
    requires TurnsShape(handle, t)
    ensures forall i :: 0 <= i < |t| && t[i].Send? ==>
      IsChatLine(handle, t[i].bytes) && |t[i].bytes| < ASSEMBLY_SIZE
    decreases |t|
  {
    if |t| >= 3 && CStr(t[1].bytes) != QUIT_WORD {
      SendsAreChatLines(handle, t[3..]);
      forall i | 3 <= i < |t| && t[i].Send?
        ensures IsChatLine(handle, t[i].bytes) && |t[i].bytes| < ASSEMBLY_SIZE
      {
        assert t[i] == t[3..][i - 3];
      }
    }
    if |t| >= 2 && t[0].Send? {
      var text := Unframe(handle, t[0].bytes).value;
      assert |t[0].bytes| == |handle| + |SEPARATOR| + |text|;
    }
  }

  /** What follows a receive: the remote sentinel is answered by the
      "Server closed connection." notice and the close; anything else is
      printed, as a C string with a newline, before the next turn. No
      receive holds more than 500 bytes. */
  lemma {:induction false} ReceiptsAnswered(handle: string, t: seq<Event>)
    requires TurnsShape(handle, t)
    ensures forall i :: 0 <= i < |t| && t[i].Recv? ==> |t[i].bytes| <= BUFFER_SIZE
    ensures forall i :: 0 <= i < |t| && t[i].Recv? && CStr(t[i].bytes) == QUIT_WORD ==>
      t[i + 1..] == [Notice(SERVER_CLOSED), Close, Notice(CONNECTION_CLOSED)]
    ensures forall i :: 0 <= i < |t| - 1 && t[i].Recv? && CStr(t[i].bytes) != QUIT_WORD ==>
      t[i + 1] == Display(CStr(t[i].bytes) + "\n")
    ensures |t| > 0 ==> !t[|t| - 1].Recv?
    decreases |t|
  {
    if |t| >= 3 && CStr(t[1].bytes) != QUIT_WORD {
      var u := t[3..];
      ReceiptsAnswered(handle, u);
      forall i | 3 <= i < |t| && t[i].Recv?
        ensures |t[i].bytes| <= BUFFER_SIZE
        ensures CStr(t[i].bytes) == QUIT_WORD ==>
          t[i + 1..] == [Notice(SERVER_CLOSED), Close, Notice(CONNECTION_CLOSED)]
        ensures i < |t| - 1 && CStr(t[i].bytes) != QUIT_WORD ==>
          t[i + 1] == Display(CStr(t[i].bytes) + "\n")
      {
        assert t[i] == u[i - 3];
        assert t[i + 1..] == u[i - 2..];
        if i < |t| - 1 {
          assert t[i + 1] == u[i - 2];
        }
      }
      if u != [] {
        assert t[|t| - 1] == u[|u| - 1];
      }
    }
  }

  /** Everything displayed was received in the event just before, minus
      anything after a NUL, with a newline added; the remote sentinel itself
      is never displayed. */
  lemma {:induction false} DisplaysFollowReceipts(handle: string, t: seq<Event>)
    requires TurnsShape(handle, t)
    ensures forall i :: 0 <= i < |t| && t[i].Display? ==>
      && 0 < i && t[i - 1].Recv? && CStr(t[i - 1].bytes) != QUIT_WORD
      && t[i].text == CStr(t[i - 1].bytes) + "\n"
    decreases |t|
  {
    if |t| >= 3 && CStr(t[1].bytes) != QUIT_WORD {
      DisplaysFollowReceipts(handle, t[3..]);
      forall i | 3 <= i < |t| && t[i].Display?
        ensures t[i - 1].Recv? && CStr(t[i - 1].bytes) != QUIT_WORD
        ensures t[i].text == CStr(t[i - 1].bytes) + "\n"
      {
        assert t[i] == t[3..][i - 3];
        if i == 3 {
          assert false;
        }
        assert t[i - 1] == t[3..][i - 4];
      }
    }
  }

  /** "\quit" from the server is never shown as a chat line. */
  lemma NeverDisplaysQuitWord(handle: string, t: seq<Event>)
    requires TurnsShape(handle, t)
    ensures Display(QUIT_WORD + "\n") !in t
  {
    DisplaysFollowReceipts(handle, t);
    forall i | 0 <= i < |t| && t[i].Display?
      ensures t[i] != Display(QUIT_WORD + "\n")
    {
      var shown := CStr(t[i - 1].bytes);
      assert (shown + "\n")[..|shown|] == shown;
      assert (QUIT_WORD + "\n")[..|QUIT_WORD|] == QUIT_WORD;
    }
  }

  /** The connection is closed once, as the last step before the "Connection
      has been closed." notice, and never straight after a send: the local
      sentinel closes without sending anything in that turn. */
  lemma {:induction false} CloseIsFinal(handle: string, t: seq<Event>)
    requires TurnsShape(handle, t)
    ensures forall i :: 0 <= i < |t| && t[i] == Close ==>
      && i == |t| - 2 && t[i + 1] == Notice(CONNECTION_CLOSED)
      && (i > 0 ==> t[i - 1].Display? || t[i - 1] == Notice(SERVER_CLOSED))
    decreases |t|
  {
    if |t| >= 3 && CStr(t[1].bytes) != QUIT_WORD {
      CloseIsFinal(handle, t[3..]);
      forall i | 3 <= i < |t| && t[i] == Close
        ensures i == |t| - 2 && t[i + 1] == Notice(CONNECTION_CLOSED)
        ensures t[i - 1].Display? || t[i - 1] == Notice(SERVER_CLOSED)
      {
        assert t[i] == t[3..][i - 3];
        assert t[i + 1] == t[3..][i - 2];
        if i > 3 {
          assert t[i - 1] == t[3..][i - 4];
        }
      }
    }
  }

  /** The handshake alone alternates: the handle goes out first, and the
      one receive, if any, answers it. */
  lemma HandshakeWire(handle: string, net: seq<Exchange>)
    ensures var r := Handshake(handle, net);
      && StrictlyAlternating(Wire(r.events), true)
      && (r.remote.Some? ==> Wire(r.events) == r.events)
  {
    var r := Handshake(handle, net);
    if |r.events| == 2 {
      assert Wire(r.events) == [r.events[0]] + Wire(r.events[1..]);
      assert r.events[1..][1..] == [];
      if r.remote.Some? {
        assert Wire(r.events[1..]) == [r.events[1]];
      } else {
        WireOfSilent(r.events[1..]);
      }
    } else {
      WireOfSilent(r.events);
    }
  }

  /** A whole client run: when a handle is accepted the first event is
      sending it, the server's handle arrives as at most 10 bytes at index 1,
      and the stream alternates send, receive, ... from the handshake to the
      end of the chat. */
  lemma RunWellShaped(words: seq<string>, stdin: string, net: seq<Exchange>)
    ensures var t := Run(words, stdin, net);
      && (t != [] ==> FirstFit(Tokens(words), MAX_HANDLE).0.Some?)
      && (t != [] && t[0].Send? ==> t[0].bytes == FirstFit(Tokens(words), MAX_HANDLE).0.value)
      && (|t| >= 2 && t[1].Recv? ==> |t[1].bytes| <= HANDSHAKE_CAPACITY)
      && StrictlyAlternating(Wire(t), true)
  {
    var t := Run(words, stdin, net);
    var handle := FirstFit(Tokens(words), MAX_HANDLE).0;
    if handle.Some? {
      var shake := Handshake(handle.value, net);
      HandshakeWire(handle.value, net);
      if shake.remote.Some? {
        var chat := ChatTrace(handle.value, stdin, shake.rest);
        assert t == shake.events + chat;
        assert t[0] == Send(handle.value) && t[1] == Recv(shake.remote.value);
        ChatWellShaped(handle.value, stdin, shake.rest);
        TurnsAlternate(handle.value, chat);
        WireAppend(shake.events, chat);
        AlternatingPrepend(Send(handle.value), Recv(shake.remote.value), Wire(chat), true);
      } else {
        assert t == shake.events;
      }
    } else {
      WireOfSilent(t);
    }
  }
}
