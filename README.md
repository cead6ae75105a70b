# pyChat session core in Dafny

A model of the turn-based chat session between the C client (`client.c`)
and the Python server (`server.py`) of pyChat, with proofs about it.

The client prompts for a handle of 1 to 10 characters. It sends that handle
and receives the server's handle in one receive of at most 10 bytes. Then
it runs its turn loop:

- read a line;
- leave silently on the line `\quit` followed by a newline;
- otherwise build `handle + "> " + line` in a cleared 512-byte buffer, send
  it, and receive at most 500 bytes;
- on the bare reply `\quit`, print "Server closed connection." and leave;
- on any other reply, print it and go round again;
- after leaving, close the stream and print "Connection has been closed.".

The server prompts for its own handle. For each connection it receives the
client's handle (at most 512 bytes) and then sends its own. Then it runs its
turn loop:

- receive at most 501 bytes and drop the last one;
- on an empty result, print the wait notice and end the session;
- otherwise print the result, then re-prompt until the reply has 1 to 500
  characters;
- send the reply bare if it is `\quit`, and end the session after the
  notice;
- otherwise send `serverH + "> " + reply` and go round again.

Both programs are modelled in their own imperative form. The methods
`StartChat`, `RunClient`, `RunServer`, `EstablishHandshake` and `Reprompt`
are each proved equal to a specification function, and `Client.Turn` agrees
with `Client.Turns` for one turn. The buffer operations (`Memset`, `Put`,
`StrCat`, `Fgets`, `Assemble`, `ReceiveInto`) state in their contracts what
the buffers hold afterwards.

- Client (`client.dfy`):
  - `startChat` works on three `char` arrays of 500, 512 and 500 cells.
  - `memset`, `strcat` and `fgets` are modelled on those arrays (`cstring.dfy`).
  - A buffer's content is read as a C string, meaning the characters before
    its first NUL.
  - `Client.StartChat` is proved to yield `Client.ChatTrace`.
- Server (`server.dfy`):
  - `startChat` is a `while true` loop with the re-prompt loop inside it.
  - `__main__` runs the handle prompt and then the accept loop over a
    script of connections.
- Shared parts (`protocol.dfy`):
  - the observable events `Send`, `Recv`, `Display`, `Notice`, `Close` and `Fatal`;
  - the framing `Frame(handle, text) = handle + "> " + text`;
  - what one receive delivers (`Received`);
  - strict send/receive alternation;
  - the re-prompt loop both programs use (`Reprompt` / `FirstFit`).
- Cross-peer properties (`conversation.dfy`): what one side's send becomes
  after the other side's receive and test.

Each side's properties are stated on its trace. A recursive predicate gives
the grammar of a trace (`Client.TurnsShape`, `Server.ChatShape`). A lemma
shows that every trace of the specification has that shape. The
consequences follow from the shape: alternation, framing, sentinel handling,
length bounds, and what is displayed.

The environment is given as scripts:

- Client keyboard: the words `scanf("%s")` stores, and the character stream
  `fgets` reads. In client.c both come from one stdin. The stream stands
  for the keyboard after the accepted word, so the throw-away fgets
  (client.c:131) reads the rest of that word's line. Otherwise the model
  treats the two scripts as independent.
- Server keyboard: the lines `raw_input` returns, shared by the handle
  prompt and every session.
- Client stream: one `Exchange` per turn. The send fails, or the send
  succeeds and the receive fails, or both succeed and the receive delivers
  what the peer wrote in one send.
- Server stream: one `Arrival` per receive: the bytes, or a socket error.

When a stream script, the connection script, the scanf words or the
server's keyboard lines run out, the model's run stops there with no
further event. On a stream or at accept the real program would block.
scanf's end of input and raw_input's EOFError are described under
"## Left out". The client's fgets stream is different: at its end the
input buffer keeps its old content, and the turns go on while exchanges
remain (client.c:135).

At the client, a receive of zero bytes (the server closed without `\quit`)
is displayed as an empty line and the loop goes on (client.c:151-162). The
model does the same and does not treat it as the end of the session.

## Model

| member | source | states |
|---|---|---|
| `Protocol.UnframeFrame` | client.c:141-143 | removing the first len(handle) + 2 characters of `handle + "> " + text` gives back exactly `text` |
| `Protocol.FrameIsNotQuitWord` | server.py:35-43 | a framed line is never the bare sentinel `\quit`, so a framed reply and the bare quit are always distinguishable |
| `Protocol.Received` | client.c:151 | one receive into a buffer of capacity `c` delivers the first min(len(m), c) bytes of the message `m` the peer sent, and no other bytes |
| `Protocol.FirstFit` | server.py:54-55 | the answer settled on has length 1 to `max` and is the first such answer; every earlier answer was rejected; the answers after it are left unread; no answer is settled on only when none fits |
| `Protocol.FirstFitLeavesTail` | server.py:31-32 | the answers the re-prompt leaves unread are a tail of the answers it was given |
| `Protocol.Reprompt` | client.c:185-193 | the re-prompt loop returns exactly the answer `FirstFit` selects and leaves exactly the same answers unread |
| `Protocol.NoTwoInARow` | client.c:145-151 | on a strictly alternating wire no two sends and no two receives are adjacent |
| `CString.CStr` | client.c:156-161 | the string a buffer holds is the longest NUL-free prefix: it stops at the first NUL or at the end of the buffer |
| `CString.Memset` | client.c:127-129 | after memset every cell is NUL and the buffer holds the empty string |
| `CString.StrCat` | client.c:141-143 | when the result and its terminator fit, the buffer then holds its old C string followed by the appended text |
| `CString.LineLength` | client.c:135 | fgets takes characters up to and including the first newline, at most `room` of them and no more than remain; it takes at least one when input remains |
| `CString.Fgets` | client.c:131 | at end of input the buffer is left unchanged; otherwise it holds the next line cut to 499 characters, and the rest of the stream (the remainder of a long line included) is left unread |
| `CString.Put` | client.c:141-143 | the cells from `at` on hold the copied text, and every other cell keeps its old content |
| `Client.Handshake` | client.c:91-107 | the handle is sent and then at most 10 bytes are received, which are a prefix of the server's send; a failed send or receive ends in `Fatal`; the only receive comes right after sending the handle |
| `Client.EstablishHandshake` | client.c:95-106 | the handshake method yields exactly the events, server handle and remaining stream of `Handshake` |
| `Client.Turns` | client.c:133-167 | the turn loop has no event only when the line read is not the local `\quit` and the stream script has run out; every turn begins with its send, with the close of a local quit, or with a failed send |
| `Client.ChatTrace` | client.c:119-171 | with no exchange left the chat is silent or is the local quit's close and closed notice; otherwise it begins with a send, the close or a failed send |
| `Client.Tokens` | client.c:187-190 | each handle the prompt loop tests is the C string of the scanned word, as strlen measures it, so it holds no NUL |
| `Client.Run` | client.c:185-203 | a run has no event exactly when the stream script is empty or no scanned word measures 1 to 10 characters; otherwise it begins by sending a NUL-free handle of 1 to 10 characters, or with a failed send |
| `Client.ReadLine` | client.c:135 | the line read stays under 500 characters and NUL-free; at end of input it is what the buffer held before; otherwise input is consumed |
| `Client.Assemble` | client.c:141-143 | the three strcats leave `prepended` holding exactly `handle + "> " + line`, which is under 512 bytes |
| `Client.ReceiveInto` | client.c:151-156 | after the receive, the cleared output buffer holds the C string of the bytes received |
| `Client.Turn` | client.c:134-166 | one loop body on the three arrays: its events, and how it ends (leave, halt, or next turn with the buffers cleared again), agree with `Turns` |
| `Client.StartChat` | client.c:119-171 | the buffer-level loop, with its first throw-away fgets and the close at the end, produces exactly `ChatTrace` |
| `Client.RunClient` | client.c:185-203 | main's handle loop, handshake and chat produce exactly `Run` |
| `Client.TurnsWellShaped` | client.c:133-167 | every run of the turn loop has the shape `TurnsShape` |
| `Client.ChatWellShaped` | client.c:127-171 | every `startChat` trace has the shape `TurnsShape` |
| `Client.TurnsAlternate` | client.c:145-151 | the wire traffic of a chat is strictly send, receive, send, receive, ..., starting with a send |
| `Client.SendsAreChatLines` | client.c:135-145 | every send is `handle + "> " + line` for a NUL-free line under 500 characters that is not `\quit\n`, and is under 512 bytes |
| `Client.ReceiptsAnswered` | client.c:151-162 | every receive holds at most 500 bytes; the bare `\quit` is followed by exactly the server-closed notice, the close and the closed notice; any other receive is followed right away by its display, and no trace ends on a receive |
| `Client.DisplaysFollowReceipts` | client.c:160-162 | every display is the C string of the receive just before it plus a newline, and that receive was not the sentinel |
| `Client.NeverDisplaysQuitWord` | client.c:156-158 | `\quit` followed by a newline is never displayed |
| `Client.CloseIsFinal` | client.c:137-170 | the stream is closed once, second to last, before the closed notice, and never right after a send: a local quit sends nothing in its turn |
| `Client.HandshakeWire` | client.c:95-102 | the handshake's own traffic alternates, starting with sending the handle; when it completes, its events are exactly that send and that receive |
| `Client.RunWellShaped` | client.c:201-203 | a whole run starts by sending the accepted handle; the server handle arrives as at most 10 bytes at index 1; the wire alternates from the handshake to the end |
| `Server.Strip` | server.py:19 | Python's `[0:-1]`: the last character is removed and the rest kept, and the empty string stays empty |
| `Server.Handshake` | server.py:6-10 | the stream continues exactly when the first receive returns data; then the client's handle (at most 512 bytes) is received before the server's handle is sent; a socket error is fatal |
| `Server.EstablishHandshake` | server.py:8-10 | the handshake method yields exactly the events and remaining stream of `Handshake` |
| `Server.Chat` | server.py:12-43 | a session that ends by its own break ends with the wait notice, or with the notice followed by the bare `\quit`, and leaves no more keyboard lines than it was given |
| `Server.ChatLeavesUnread` | server.py:17-38 | a session that ends by its own break leaves exactly the tail of the keyboard lines after the last one its re-prompts read |
| `Server.Session` | server.py:71-76 | a session opens with the new-connection notice; it ends by its own break only after a handshake receive that returned data, and then leaves a tail of the keyboard lines |
| `Server.SessionOpensOnce` | server.py:72-76 | a session prints the new-connection notice exactly once and never the running notice |
| `Server.Serve` | server.py:68-76 | the accept loop has no event exactly when there is no connection, and otherwise begins with the new-connection notice |
| `Server.ServeOpensEachConnection` | server.py:68-76 | the accept loop prints at most one new-connection notice per connection and never the running notice |
| `Server.ServerRun` | server.py:54-76 | the server is silent exactly when no keyboard line has 1 to 10 characters; otherwise it prints the running notice first, and the new-connection notice second when a connection arrives |
| `Server.ServerRunAnnouncesOnce` | server.py:66 | a server that got a handle prints the running notice exactly once |
| `Server.StartChat` | server.py:17-43 | the loop with its inner re-prompt produces exactly the events and remaining keyboard of `Chat` |
| `Server.RunServer` | server.py:54-76 | the handle prompt and the accept loop over the connections produce exactly `ServerRun` |
| `Server.ChatWellShaped` | server.py:16-43 | every chat trace has the shape `ChatShape` |
| `Server.ChatAlternates` | server.py:17-43 | the server's wire traffic is strictly receive, send, receive, send, ..., starting with a receive, so each send answers a receive |
| `Server.SendsAreReplies` | server.py:31-43 | every send is a framed reply of 1 to 500 characters other than `\quit`, or the bare `\quit` as the last event right after the wait notice |
| `Server.ReceiptsAnswered` | server.py:19-28 | every receive holds at most 501 bytes; one of at most 1 byte strips to empty and is followed by the wait notice and nothing else; a longer one is followed by the display of its stripped text plus a newline; no trace ends on a receive |
| `Server.SessionAlternates` | server.py:71-76 | a session opens with the new-connection notice; when it sends, the client's handle has been received and the server's handle is sent; the whole session's wire alternates, starting with a receive |
| `Conversation.HandshakeAgreement` | server.py:8-10 | handles of 1 to 10 characters cross the handshake whole in both directions |
| `Conversation.ServerQuitEndsClientChat` | server.py:35-38 | the server's bare `\quit` puts the client on its remote-quit branch: send, receive `\quit`, the server-closed notice, the close, the closed notice |
| `Conversation.ServerReplyAsClientSees` | server.py:41-43 | the client never takes a framed server reply for the sentinel; it shows a NUL-free reply whole if and only if the frame fits 500 bytes, and otherwise shows its first 500 bytes |
| `Conversation.ClientLineAsServerSees` | server.py:19 | a client chat line never looks like a close to the server, not even the empty line the client frames once its keyboard has run out; for a non-empty line the server recovers the frame minus its last character if and only if the frame is at most 501 bytes |
| `Conversation.ClientLineDisplayedByServer` | server.py:28 | a newline-terminated client line whose frame fits 501 bytes is received whole and printed as `handle + "> " + line` with one newline |
| `Conversation.ClientCloseEndsServerChat` | server.py:22-25 | the empty receive that follows the client's silent close ends the server's chat with the wait notice, and the keyboard is left untouched |

## Left out

- Socket setup and teardown are not modelled: address lookup, socket
  creation and connect (client.c:32-84, 195-199), freeaddrinfo
  (client.c:205), and socket, bind and listen (server.py:58-64). The
  accepted connection is the next entry of the connection script.
- The `close()` after the server's accept loop (server.py:78) is
  unreachable, so it has no event.
- Prompts (`printf("%s> ")`, the handle prompts, the raw_input prompt) and
  the command-line arity checks (client.c:180-183, server.py:49-51) are not
  modelled.
- Messages are not cut or merged across reads. One receive returns a prefix
  of exactly one send of the peer. The cut-off rest of a long message is
  dropped: the model does not deliver it on the next receive.
- Blocking is not modelled. When a stream script or the connection script
  runs out, the run ends with no further event. The same happens when the
  scanf words or the server's keyboard lines run out. The client's fgets
  stream does not end the run: fgets then leaves the buffer as it was.
- Client.RunClient: it does not model the end of input during the handle
  prompt, where scanf would leave the buffer as it was and loop forever.
- Server.StartChat: it does not model the EOFError that raw_input raises at
  the end of input; the run just ends.
- Undefined behaviour in client.c:
  - The model uses the intended `"> "` separator, although `prompt[2]` has
    no terminator when passed to strcat (client.c:121, 142).
  - A scanned word of 10 or more characters overflows the 10-byte
    `clientHandle` before the length test, since even a 10-character word
    writes its terminator as an 11th byte. The model checks the length of
    the whole word (client.c:178, 187).
  - The non-terminated `serverHandle` (client.c:102, 177) is held as the
    received bytes; nothing later reads it.
  - A receive of 500 bytes fills `output` (client.c:151) with no
    terminator, so strcmp and printf (client.c:156, 161) read past the
    buffer. A framed server reply reaches 500 bytes when the handle and the
    reply together have 498 characters or more, so for a 10-character
    handle any reply of 488 characters or more. `CString.CStr` stops at the end of
    the buffer, so the model shows the 500 bytes received, which is what
    the code evidently intends.
- Conversation.ServerReplyAsClientSees: states the intended display of a
  500-byte receive, namely its 500 bytes; the code as written reads past
  `output` there, as the item above describes.
- `error()` and `perror` (client.c:14-17) become one `Fatal` event with the
  message. The errno text and the exit status are not modelled.
- Server sends are assumed to succeed and to write the whole string. Python's
  `send` return value is never inspected, and a failure of `send` is not
  modelled. Only a failed receive raises `socket.error`, which becomes
  `Fatal`.
- Text encoding is not modelled. Strings are sequences of characters, and a
  received payload is taken to be the characters the peer's user typed.
