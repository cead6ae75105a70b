/** The two programs facing each other: what one side's send becomes after
    the other side's receive, for the handshake, the chat lines in both
    directions, and each side's way of ending the session. */
module Conversation {
  import opened Protocol
  import opened CString
  import Client
  import Server

  /** The handshake agrees: each side learns the other's handle whole, since
      a handle of at most 10 characters fits both handshake receives. */
  lemma HandshakeAgreement(clientH: string, serverH: string,
                           toServer: seq<Server.Arrival>, toClient: seq<Client.Exchange>)
    requires ValidHandle(clientH) && ValidHandle(serverH)
    ensures Server.Handshake(serverH, [Server.Data(clientH)] + toServer).0 == [Recv(clientH), Send(serverH)]
    ensures Client.Handshake(clientH, [Client.Reply(serverH)] + toClient).remote == Some(serverH)
  {
    assert ([Server.Data(clientH)] + toServer)[0] == Server.Data(clientH);
    assert ([Client.Reply(serverH)] + toClient)[0] == Client.Reply(serverH);
  }

  /** The server's bare sentinel reaches the client as exactly "\quit" and
      takes the client's remote-quit branch: the notice, the close, and the
      end of the chat. */
  lemma ServerQuitEndsClientChat(handle: string, held: string, stdin: string, rest: seq<Client.Exchange>)
    requires Client.ReadLine(held, stdin).0 != Client.QUIT_LINE
    ensures var line := Client.ReadLine(held, stdin).0;
      Client.Turns(handle, held, stdin, [Client.Reply(QUIT_WORD)] + rest)
      == [Send(Frame(handle, line)), Recv(QUIT_WORD),
          Notice(Client.SERVER_CLOSED), Close, Notice(Client.CONNECTION_CLOSED)]
  {
    CStrOfText(QUIT_WORD);
    assert ([Client.Reply(QUIT_WORD)] + rest)[0] == Client.Reply(QUIT_WORD);
  }

  /** A framed server reply as the client shows it: never mistaken for the
      sentinel, and shown whole exactly when it fits the client's 500-byte
      buffer; a longer one loses everything past its first 500 bytes. */
  lemma ServerReplyAsClientSees(serverH: string, reply: string)
    requires ValidHandle(serverH) && NUL !in serverH
    requires Fits(reply, Server.MAX_REPLY) && NUL !in reply
    ensures var message := Frame(serverH, reply);
      var shown := CStr(Received(Client.BUFFER_SIZE, message));
      && shown != QUIT_WORD
      && shown == message[..if |message| <= Client.BUFFER_SIZE then |message| else Client.BUFFER_SIZE]
      && (shown == message <==> |message| <= Client.BUFFER_SIZE)
  {
    var message := Frame(serverH, reply);
    var got := Received(Client.BUFFER_SIZE, message);
    assert NUL !in message;
    assert NUL !in got by {
      assert forall j :: 0 <= j < |got| ==> got[j] == message[j];
    }
    CStrOfText(got);
    assert got[|serverH|] == '>';
    assert forall i :: 0 <= i < |QUIT_WORD| ==> QUIT_WORD[i] != '>';
  }

  /** A client chat line as the server shows it: since a frame is never
      shorter than 3 bytes, not even for the empty line the client sends
      once its keyboard has run out, the server never takes a chat line for
      the client's close; and for a non-empty line the server's 501-byte
      receive and its strip of the last byte give back the framed line less
      its last character exactly when the frame is at most 501 bytes. */
  lemma ClientLineAsServerSees(handle: string, line: string)
    requires ValidHandle(handle)
    ensures var message := Frame(handle, line);
      var text := Server.Strip(Received(Server.CHAT_CAPACITY, message));
      && text != ""
      && (line != [] ==> (text == Frame(handle, line[..|line| - 1]) <==> |message| <= Server.CHAT_CAPACITY))
  {
    var message := Frame(handle, line);
    var text := Server.Strip(Received(Server.CHAT_CAPACITY, message));
    if line == [] {
      assert |text| >= 2;
    } else if |message| <= Server.CHAT_CAPACITY {
      assert text == message[..|message| - 1];
      assert Frame(handle, line[..|line| - 1]) == message[..|message| - 1];
    } else {
      assert |text| == Server.CHAT_CAPACITY - 1;
      assert |Frame(handle, line[..|line| - 1])| == |message| - 1;
    }
  }

  /** A line typed at the client and ended by a newline, framed, is printed
      by the server as the client's handle, "> " and the line, when it fits,
      whatever the server replies. */
  lemma ClientLineDisplayedByServer(handle: string, line: string, serverH: string,
                                    lines: seq<string>, rest: seq<Server.Arrival>)
    requires ValidHandle(handle) && line != [] && line[|line| - 1] == '\n'
    requires |Frame(handle, line)| <= Server.CHAT_CAPACITY
    ensures var t := Server.Chat(serverH, lines, [Server.Data(Frame(handle, line))] + rest).0;
      |t| >= 2 && t[..2] == [Recv(Frame(handle, line)), Display(Frame(handle, line[..|line| - 1]) + "\n")]
  {
    ClientLineAsServerSees(handle, line);
    var net := [Server.Data(Frame(handle, line))] + rest;
    assert net[0] == Server.Data(Frame(handle, line));
  }

  /** The client's local sentinel sends nothing and closes; the server's
      next receive then returns the empty string, which ends its chat with
      the notice and keeps the keyboard where it was. */
  lemma ClientCloseEndsServerChat(serverH: string, lines: seq<string>, rest: seq<Server.Arrival>)
    ensures Server.Chat(serverH, lines, [Server.Data([])] + rest)
      == ([Recv([]), Notice(Server.WAIT_NOTICE)], Some(lines))
  {
    assert ([Server.Data([])] + rest)[0] == Server.Data([]);
  }
}
