/** Vocabulary shared by the two peers of a chat session: the events a
    session makes observable, the constants of the wire protocol, the
    framing of a chat line, what one receive delivers, the strict
    send/receive alternation, and the re-prompt loop both programs use to
    read length-bounded text from their user. */
module Protocol {

  datatype Option<+T> = None | Some(value: T)

  /** One observable step of a session, in the order it happens. */
  datatype Event =
    | Send(bytes: string)     // one write to the stream
    | Recv(bytes: string)     // what one read from the stream delivered
    | Display(text: string)   // text printed for the local user
    | Notice(text: string)    // a status line printed for the local user
    | Close                   // the stream is closed
    | Fatal(reason: string)   // a transport error aborts the program

  /** Longest handle either program accepts from its user. */
  const MAX_HANDLE: nat := 10
  /** Separator between the sender's handle and the text of a chat line. */
  const SEPARATOR: string := "> "
  /** The bare termination sentinel a peer writes on the wire. */
  const QUIT_WORD: string := "\\quit"

  /** The re-prompt test of both programs: accepted iff 1 <= length <= max. */
  predicate Fits(answer: string, max: nat) {
    1 <= |answer| <= max
  }

  predicate ValidHandle(h: string) {
    Fits(h, MAX_HANDLE)
  }

  /** A chat line as it goes on the wire: handle, separator, text. */
  function Frame(handle: string, text: string): string {
    handle + SEPARATOR + text
  }

  /** The text of a chat line from `handle`, if `message` is one. */
  function Unframe(handle: string, message: string): (r: Option<string>)
    ensures r.Some? ==> message == Frame(handle, r.value)
    ensures r.None? ==> forall text :: message != Frame(handle, text)
  {
    var n := |handle| + |SEPARATOR|;
    if n <= |message| && message[..n] == handle + SEPARATOR then
      assert message == message[..n] + message[n..];
      Some(message[n..])
    else
      assert forall text :: Frame(handle, text)[..n] == handle + SEPARATOR;
      None
  }

  /** Stripping the first |handle| + 2 characters of a framed line gives back
      exactly the text that was framed. */
  lemma {:induction false} UnframeFrame(handle: string, text: string)
    ensures Unframe(handle, Frame(handle, text)) == Some(text)
  {
    var m := Frame(handle, text);
    var n := |handle| + |SEPARATOR|;
    assert m[..n] == handle + SEPARATOR;
    assert m[n..] == text;
  }

  /** A framed chat line is never the bare sentinel: it holds a '>' and the
      sentinel does not. */
  lemma {:induction false} FrameIsNotQuitWord(handle: string, text: string)
    ensures Frame(handle, text) != QUIT_WORD
  {
    var m := Frame(handle, text);
    assert m[|handle|] == '>';
    assert forall i :: 0 <= i < |QUIT_WORD| ==> QUIT_WORD[i] != '>';
  }

  /** What one receive into a buffer of `capacity` bytes delivers when the
      peer wrote `message` in one send: the whole message if it fits, its
      first `capacity` bytes otherwise. */
  function Received(capacity: nat, message: string): (r: string)
    ensures |r| == if |message| <= capacity then |message| else capacity
    ensures r == message[..|r|]
  {
    if |message| <= capacity then message else message[..capacity]
  }

  /** The stream traffic of a trace: its sends and receives, in order. */
  function Wire(t: seq<Event>): (w: seq<Event>)
    ensures forall i :: 0 <= i < |w| ==> w[i].Send? || w[i].Recv?
    ensures |w| <= |t|
  {
    if t == [] then []
    else (if t[0].Send? || t[0].Recv? then [t[0]] else []) + Wire(t[1..])
  }

  lemma {:induction false} WireAppend(a: seq<Event>, b: seq<Event>)
    ensures Wire(a + b) == Wire(a) + Wire(b)
    decreases |a|
  {
    if a == [] {
      assert a + b == b;
    } else {
      assert (a + b)[1..] == a[1..] + b;
      WireAppend(a[1..], b);
    }
  }

  /** Events that touch no stream leave nothing on the wire. */
  lemma {:induction false} WireOfSilent(t: seq<Event>)
    requires forall i :: 0 <= i < |t| ==> !t[i].Send? && !t[i].Recv?
    ensures Wire(t) == []
    decreases |t|
  {
    if t != [] {
      WireOfSilent(t[1..]);
    }
  }

  /** Regrouping a concatenation; called where the solver would otherwise
      have to search for it. */
  lemma AppendAssoc<T>(a: seq<T>, b: seq<T>, c: seq<T>)
    ensures a + (b + c) == (a + b) + c
  {
  }

  /** Strict ping-pong: sends and receives take turns, the first being a send
      exactly when `sendFirst` holds. */
  predicate StrictlyAlternating(w: seq<Event>, sendFirst: bool) {
    forall i :: 0 <= i < |w| ==>
      (w[i].Send? || w[i].Recv?) && (w[i].Send? <==> ((i % 2 == 0) == sendFirst))
  }

  /** Alternation rules out two sends, or two receives, in a row. */
  lemma NoTwoInARow(w: seq<Event>, sendFirst: bool)
    requires StrictlyAlternating(w, sendFirst)
    ensures forall i :: 0 <= i < |w| - 1 ==> w[i].Send? != w[i + 1].Send?
  {
    forall i | 0 <= i < |w| - 1
      ensures w[i].Send? != w[i + 1].Send?
    {
      assert (i % 2 == 0) != ((i + 1) % 2 == 0);
    }
  }

  /** One complete exchange in front of an alternating tail keeps the
      alternation. */
  lemma {:induction false} AlternatingPrepend(x: Event, y: Event, w: seq<Event>, sendFirst: bool)
    requires StrictlyAlternating(w, sendFirst)
    requires (x.Send? && y.Recv? && sendFirst) || (x.Recv? && y.Send? && !sendFirst)
    ensures StrictlyAlternating([x, y] + w, sendFirst)
  {
    var v := [x, y] + w;
    forall i | 2 <= i < |v|
      ensures (v[i].Send? || v[i].Recv?) && (v[i].Send? <==> ((i % 2 == 0) == sendFirst))
    {
      assert v[i] == w[i - 2];
      assert (i % 2 == 0) == ((i - 2) % 2 == 0);
    }
  }

  /** The answer a re-prompt loop settles on, and the answers left unread:
      the first answer of length 1 to `max`; None once the answers run out. */
  function FirstFit(answers: seq<string>, max: nat): (r: (Option<string>, seq<string>))
    ensures r.0.None? ==> r.1 == [] && forall j :: 0 <= j < |answers| ==> !Fits(answers[j], max)
    ensures r.0.Some? ==>
      var k := |answers| - |r.1| - 1;
      && 0 <= k < |answers|
      && r.0.value == answers[k] && Fits(r.0.value, max)
      && r.1 == answers[k + 1..]
      && forall j :: 0 <= j < k ==> !Fits(answers[j], max)
  {
    if answers == [] then (None, [])
    else if Fits(answers[0], max) then (Some(answers[0]), answers[1..])
    else FirstFit(answers[1..], max)
  }

  /** `u` is what is left of `s` after dropping some of its elements from
      the front. */
  ghost predicate IsTail<T>(u: seq<T>, s: seq<T>)
    decreases |s|
  {
    u == s || (s != [] && IsTail(u, s[1..]))
  }

  lemma {:induction false} TailOfTail<T>(u: seq<T>, t: seq<T>, s: seq<T>)
    requires IsTail(u, t) && IsTail(t, s)
    ensures IsTail(u, s)
    decreases |s|
  {
    if t != s {
      TailOfTail(u, t, s[1..]);
    }
  }

  /** A tail is the slice of `s` from its length back. */
  lemma {:induction false} TailIsSuffix<T>(u: seq<T>, s: seq<T>)
    requires IsTail(u, s)
    ensures |u| <= |s| && u == s[|s| - |u|..]
    decreases |s|
  {
    if u != s {
      TailIsSuffix(u, s[1..]);
      assert s[1..][|s| - 1 - |u|..] == s[|s| - |u|..];
    }
  }

  /** The answers FirstFit leaves unread are a tail of the answers. */
  lemma {:induction false} FirstFitLeavesTail(answers: seq<string>, max: nat)
    ensures IsTail(FirstFit(answers, max).1, answers)
    decreases |answers|
  {
    if answers != [] {
      if Fits(answers[0], max) {
        assert IsTail(answers[1..], answers[1..]);
      } else {
        FirstFitLeavesTail(answers[1..], max);
      }
    }
  }

  /** The re-prompt loop of client.c's main and of server.py: keep reading
      until an answer has length 1 to `max`. */
  method Reprompt(answers: seq<string>, max: nat) returns (answer: Option<string>, rest: seq<string>)
    ensures (answer, rest) == FirstFit(answers, max)
  {
    var pending := answers;
    var candidate := "";
    while !Fits(candidate, max)
      invariant |pending| <= |answers|
      invariant (if Fits(candidate, max) then (Some(candidate), pending) else FirstFit(pending, max))
                == FirstFit(answers, max)
      decreases |pending|
    {
      if pending == [] {
        return None, [];
      }
      candidate := pending[0];
      pending := pending[1..];
    }
    answer, rest := Some(candidate), pending;
  }
}
