/** The C-string view of the client's fixed-size character buffers and the C
    library calls client.c performs on them (memset, strcat, fgets, and the
    copy a receive makes into its buffer). A buffer holds the characters
    before its first NUL. */
module CString {

  const NUL: char := '\0'

  /** The string a C buffer holds: its characters before the first NUL, or
      all of them when it has none. */
  function CStr(s: seq<char>): (r: string)
    ensures |r| <= |s|
    ensures forall j :: 0 <= j < |r| ==> r[j] == s[j]
    ensures NUL !in r
    ensures |r| < |s| ==> s[|r|] == NUL
  {
    if s == [] || s[0] == NUL then [] else [s[0]] + CStr(s[1..])
  }

  /** Those four facts pin the C string down: any NUL-free prefix followed by
      a NUL, or by the end of the buffer, is it. */
  lemma {:induction false} CStrUnique(s: seq<char>, x: string)
    requires |x| <= |s|
    requires forall j :: 0 <= j < |x| ==> s[j] == x[j]
    requires NUL !in x
    requires |x| < |s| ==> s[|x|] == NUL
    ensures CStr(s) == x
  {
    if |x| == 0 {
      assert s == [] || s[0] == NUL;
    } else {
      assert x[0] == s[0] && x[0] != NUL;
      CStrUnique(s[1..], x[1..]);
      assert x == [x[0]] + x[1..];
    }
  }

  /** Text without a NUL is its own C string. */
  lemma CStrOfText(x: string)
    requires NUL !in x
    ensures CStr(x) == x
  {
    CStrUnique(x, x);
  }

  /** Copying `got` over the front of a zeroed buffer leaves the buffer
      holding the C string of `got`, whether or not `got` fills it. */
  lemma CStrOverZeros(s: seq<char>, got: string)
    requires |got| <= |s|
    requires forall j :: 0 <= j < |got| ==> s[j] == got[j]
    requires forall j :: |got| <= j < |s| ==> s[j] == NUL
    ensures CStr(s) == CStr(got)
  {
    var x := CStr(got);
    if |x| < |got| {
      assert s[|x|] == got[|x|];
    }
    CStrUnique(s, x);
  }

  /** memset(a, 0, sizeof a). */
  method Memset(a: array<char>)
    modifies a
    ensures forall j :: 0 <= j < a.Length ==> a[j] == NUL
    ensures CStr(a[..]) == ""
  {
    for i := 0 to a.Length
      invariant forall j :: 0 <= j < i ==> a[j] == NUL
    {
      a[i] := NUL;
    }
    CStrUnique(a[..], "");
  }

  /** Write `s` into `a` starting at `at`; nothing else changes. */
  method Put(a: array<char>, at: nat, s: string)
    requires at + |s| <= a.Length
    modifies a
    ensures forall j :: 0 <= j < a.Length ==>
      a[j] == if at <= j < at + |s| then s[j - at] else old(a[j])
  {
    for k := 0 to |s|
      invariant forall j :: 0 <= j < a.Length ==>
        a[j] == if at <= j < at + k then s[j - at] else old(a[j])
    {
      a[at + k] := s[k];
    }
  }

  /** strcat(dst, src): append the NUL-free text `src` to the C string `dst`
      holds, where the result and its terminator fit in `dst`. */
  method StrCat(dst: array<char>, src: string)
    requires NUL !in src
    requires |CStr(dst[..])| + |src| < dst.Length
    modifies dst
    ensures CStr(dst[..]) == old(CStr(dst[..])) + src
  {
    var head := CStr(dst[..]);
    var n := |head|;
    Put(dst, n, src);
    dst[n + |src|] := NUL;
    var x := head + src;
    assert forall j :: 0 <= j < |x| ==> dst[j] == x[j];
    CStrUnique(dst[..], x);
  }

  /** How many characters fgets takes from `s` with room for `room` of
      them: up to and including the first newline, at most `room`, and no
      more than there are. */
  function LineLength(s: string, room: nat): (n: nat)
    ensures n <= |s| && n <= room
    ensures s != [] && room > 0 ==> n > 0
    ensures forall j :: 0 <= j < n - 1 ==> s[j] != '\n'
    ensures n == |s| || n == room || s[n - 1] == '\n'
  {
    if s == [] || room == 0 then 0
    else if s[0] == '\n' then 1
    else 1 + LineLength(s[1..], room - 1)
  }

  /** fgets(buf, buf.Length, stdin) over the character stream `stream`: at
      end of input the buffer is left as it was; otherwise it holds the next
      line, cut to buf.Length - 1 characters, and the rest of the line stays
      in the stream. */
  method Fgets(buf: array<char>, stream: string) returns (rest: string)
    requires buf.Length >= 1
    modifies buf
    ensures stream == [] ==> rest == [] && buf[..] == old(buf[..])
    ensures stream != [] ==>
      var n := LineLength(stream, buf.Length - 1);
      rest == stream[n..] && CStr(buf[..]) == CStr(stream[..n])
  {
    if stream == [] {
      return [];
    }
    var n := LineLength(stream, buf.Length - 1);
    var line := stream[..n];
    Put(buf, 0, line);
    buf[n] := NUL;
    var x := CStr(line);
    if |x| < n {
      assert buf[|x|] == line[|x|];
    }
    CStrUnique(buf[..], x);
    rest := stream[n..];
  }
}
