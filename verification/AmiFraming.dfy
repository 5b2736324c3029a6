/** The AMI byte stream, cut into messages at blank lines no matter how it arrives in chunks. */
module AmiFraming {
  import opened Prelude
  import opened Trimming

  const SEPARATOR := "\r\n\r\n"

  predicate SeparatorAt(s: string, k: nat) {
    k + 4 <= |s| && s[k] == '\r' && s[k + 1] == '\n' && s[k + 2] == '\r' && s[k + 3] == '\n'
  }

  /** `s.indexOf('\r\n\r\n')` */
  function IndexOfSeparator(s: string): (k: int)
    ensures -1 <= k
    ensures k >= 0 ==> SeparatorAt(s, k) && forall j: nat :: j < k ==> !SeparatorAt(s, j)
    ensures k == -1 ==> forall j: nat :: !SeparatorAt(s, j)
  {
    SearchSeparator(s, 0)
  }

  function SearchSeparator(s: string, from: nat): (k: int)
    requires from <= |s| && forall j: nat :: j < from ==> !SeparatorAt(s, j)
    ensures -1 <= k
    ensures k >= 0 ==> SeparatorAt(s, k) && forall j: nat :: j < k ==> !SeparatorAt(s, j)
    ensures k == -1 ==> forall j: nat :: !SeparatorAt(s, j)
    decreases |s| - from
  {
    if SeparatorAt(s, from) then from
    else if from + 4 >= |s| then -1
    else SearchSeparator(s, from + 1)
  }

  /** The complete messages of a stream, and the start of the next one. */
  datatype Framed = Framed(messages: seq<string>, rest: string)

  /** The whole stream split at once. */
  function Frames(s: string): Framed
    decreases |s|
  {
    var k := IndexOfSeparator(s);
    if k == -1 then Framed([], s) else Prepend(s[..k], Frames(s[k + 4..]))
  }

  function Prepend(message: string, f: Framed): Framed {
    Framed([message] + f.messages, f.rest)
  }

  function NonBlank(messages: seq<string>): seq<string> {
    if messages == [] then []
    else
      var last := messages[|messages| - 1];
      NonBlank(messages[..|messages| - 1]) + if Trim(last) != "" then [last] else []
  }

  function After(messages: seq<string>, f: Framed): Framed {
    Framed(messages + f.messages, f.rest)
  }

  lemma AfterPrepend(messages: seq<string>, message: string, f: Framed)
    ensures After(messages, Prepend(message, f)) == After(messages + [message], f)
    ensures After([message] + messages, f) == Prepend(message, After(messages, f))
  {
  }

  class AmiConnection {
    var buffer: string
    var handled: seq<string>
    ghost var received: string

    /** Whatever the chunks were, the messages handled are the non-blank ones of the stream received. */
    ghost predicate Valid()
      reads this
    {
      handled == NonBlank(Frames(received).messages) && buffer == Frames(received).rest
    }

    constructor ()
      ensures Valid() && received == ""
    {
      buffer, handled, received := "", [], "";
    }

    method HandleMessage(rawMessage: string)
      modifies this`handled
      ensures handled == old(handled) + [rawMessage]
    {
      handled := handled + [rawMessage];
    }

    /** One chunk: the messages it completes are handled, the rest is kept. */
    method OnData(data: string)
      requires Valid()
      modifies this
      ensures buffer == Frames(old(buffer) + data).rest
      ensures handled == old(handled) + NonBlank(Frames(old(buffer) + data).messages)
      ensures Valid() && received == old(received) + data
    {
      ReceiveOne(received, data);
      received := received + data;
      Drain(data);
    }

    /** The chunk is appended, and every complete message taken off the front. */
    method Drain(data: string)
      modifies this`buffer, this`handled
      ensures buffer == Frames(old(buffer) + data).rest
      ensures handled == old(handled) + NonBlank(Frames(old(buffer) + data).messages)
    {
      buffer := buffer + data;
      ghost var whole, messages := buffer, [];
      var separator := IndexOfSeparator(buffer);
      while separator != -1
        invariant separator == IndexOfSeparator(buffer)
        invariant Frames(whole) == After(messages, Frames(buffer))
        invariant handled == old(handled) + NonBlank(messages)
        decreases |buffer|
      {
        var rawMessage := buffer[..separator];
        NonBlankOneMore(messages, rawMessage);
        AfterPrepend(messages, rawMessage, Frames(buffer[separator + 4..]));
        messages := messages + [rawMessage];
        buffer := buffer[separator + 4..];
        if Trim(rawMessage) != "" {
          HandleMessage(rawMessage);
        }
        separator := IndexOfSeparator(buffer);
      }
      assert messages + [] == messages;
    }
  }

  lemma NonBlankOneMore(messages: seq<string>, message: string)
    ensures NonBlank(messages + [message]) == NonBlank(messages) + if Trim(message) != "" then [message] else []
  {
    assert (messages + [message])[..|messages|] == messages;
  }

  lemma {:induction false} NonBlankConcat(a: seq<string>, b: seq<string>)
    ensures NonBlank(a + b) == NonBlank(a) + NonBlank(b)
  {
    if b == [] {
      assert a + b == a;
    } else {
      assert (a + b)[..|a + b| - 1] == a + b[..|b| - 1];
      NonBlankConcat(a, b[..|b| - 1]);
    }
  }

  lemma ReceiveOne(received: string, data: string)
    ensures var f, g := Frames(received), Frames(Frames(received).rest + data);
            Frames(received + data).rest == g.rest
            && NonBlank(Frames(received + data).messages) == NonBlank(f.messages) + NonBlank(g.messages)
  {
    FramesAppend(received, data);
    NonBlankConcat(Frames(received).messages, Frames(Frames(received).rest + data).messages);
  }

  // ---------- Chunk invariance ----------

  /** What one chunk does to the messages so far and the buffer. */
  function Receive(f: Framed, data: string): Framed {
    After(f.messages, Frames(f.rest + data))
  }

  function ReceiveAll(f: Framed, chunks: seq<string>): Framed
    decreases |chunks|
  {
    if chunks == [] then f else ReceiveAll(Receive(f, chunks[0]), chunks[1..])
  }

  function Concat(chunks: seq<string>): string {
    if chunks == [] then "" else chunks[0] + Concat(chunks[1..])
  }

  /** A separator found in a prefix is the first one of the longer stream too. */
  lemma FirstStaysFirst(s: string, t: string, k: nat)
    requires IndexOfSeparator(s) == k
    ensures IndexOfSeparator(s + t) == k
  {
    assert SeparatorAt(s + t, k);
    forall j: nat | j < k ensures !SeparatorAt(s + t, j) {
      assert !SeparatorAt(s, j);
    }
  }

  /** Splitting a stream in two places: frame the first part, then its rest with the second. */
  lemma {:induction false} FramesAppend(s: string, t: string)
    ensures Frames(s + t) == Receive(Frames(s), t)
    decreases |s|
  {
    var k := IndexOfSeparator(s);
    if k != -1 {
      FirstStaysFirst(s, t, k);
      assert (s + t)[..k] == s[..k];
      assert (s + t)[k + 4..] == s[k + 4..] + t;
      FramesAppend(s[k + 4..], t);
      var tail := Frames(s[k + 4..]);
      AfterPrepend(tail.messages, s[..k], Frames(tail.rest + t));
    }
  }

  lemma AppendConcat(s: string, t: string, u: string)
    ensures s + t + u == s + (t + u)
  {
  }

  lemma {:induction false} ReceiveAllFrames(s: string, chunks: seq<string>)
    ensures ReceiveAll(Frames(s), chunks) == Frames(s + Concat(chunks))
    decreases |chunks|
  {
    if chunks == [] {
      assert s + "" == s;
    } else {
      var t, tail := chunks[0], chunks[1..];
      ReceiveAllFrames(s + t, tail);
      FramesAppend(s, t);
      AppendConcat(s, t, Concat(tail));
    }
  }

  /** Main result: however a stream is cut into chunks, even inside a separator, the messages and the
      leftover buffer are those of the whole stream split at once. */
  lemma ChunkInvariant(chunks: seq<string>)
    ensures ReceiveAll(Framed([], ""), chunks) == Frames(Concat(chunks))
  {
    assert Frames("") == Framed([], "");
    ReceiveAllFrames("", chunks);
    assert "" + Concat(chunks) == Concat(chunks);
  }

  /** What a connection has handled after a sequence of chunks. */
  function HandledAll(handled: seq<string>, buffer: string, chunks: seq<string>): seq<string>
    decreases |chunks|
  {
    if chunks == [] then handled
    else
      var f := Frames(buffer + chunks[0]);
      HandledAll(handled + NonBlank(f.messages), f.rest, chunks[1..])
  }

  lemma {:induction false} HandledIsReceived(f: Framed, chunks: seq<string>)
    ensures HandledAll(NonBlank(f.messages), f.rest, chunks) == NonBlank(ReceiveAll(f, chunks).messages)
    decreases |chunks|
  {
    if chunks != [] {
      NonBlankConcat(f.messages, Frames(f.rest + chunks[0]).messages);
      HandledIsReceived(Receive(f, chunks[0]), chunks[1..]);
    }
  }

  /** So the messages handled are the non-blank messages of the whole stream, in order. */
  lemma ChunksHandled(chunks: seq<string>)
    ensures HandledAll([], "", chunks) == NonBlank(Frames(Concat(chunks)).messages)
  {
    HandledIsReceived(Framed([], ""), chunks);
    ChunkInvariant(chunks);
  }

  // ---------- Nothing lost, nothing invented ----------

  /** The stream a framing stands for: every message with its separator, then the rest. */
  function Unframe(f: Framed): string
    decreases |f.messages|
  {
    if f.messages == [] then f.rest
    else f.messages[0] + SEPARATOR + Unframe(Framed(f.messages[1..], f.rest))
  }

  lemma UnframePrepend(message: string, f: Framed)
    ensures Unframe(Prepend(message, f)) == message + SEPARATOR + Unframe(f)
  {
    assert Prepend(message, f).messages[1..] == f.messages;
  }

  lemma SplitAtSeparator(s: string, k: nat)
    requires SeparatorAt(s, k)
    ensures s[..k] + SEPARATOR + s[k + 4..] == s
  {
    assert SEPARATOR == s[k..k + 4];
  }

  lemma {:induction false} Reassembles(s: string)
    ensures Unframe(Frames(s)) == s
    decreases |s|
  {
    var k := IndexOfSeparator(s);
    if k != -1 {
      Reassembles(s[k + 4..]);
      UnframePrepend(s[..k], Frames(s[k + 4..]));
      SplitAtSeparator(s, k);
    }
  }

  /** Each message ends at the first separator from where it starts; the rest has none. */
  ghost predicate Framing(f: Framed) {
    && (forall i :: 0 <= i < |f.messages| ==> IndexOfSeparator(f.messages[i] + SEPARATOR) == |f.messages[i]|)
    && IndexOfSeparator(f.rest) == -1
  }

  lemma {:induction false} FramesAreFraming(s: string)
    ensures Framing(Frames(s))
    decreases |s|
  {
    var k := IndexOfSeparator(s);
    if k != -1 {
      FramesAreFraming(s[k + 4..]);
      FirstInMessage(s, k);
    }
  }

  lemma FirstInMessage(s: string, k: nat)
    requires IndexOfSeparator(s) == k
    ensures IndexOfSeparator(s[..k] + SEPARATOR) == k
  {
    var m := s[..k] + SEPARATOR;
    assert SeparatorAt(m, k);
    forall j: nat | j < k ensures !SeparatorAt(m, j) {
      assert !SeparatorAt(s, j);
      assert m == s[..k + 4];
    }
  }

  /** Sending messages and reading them back: the receiver sees exactly the messages sent iff no message
      contains, or together with the separator completes, an earlier separator. */
  lemma {:induction false} RoundTripIff(f: Framed)
    ensures Frames(Unframe(f)) == f <==> Framing(f)
    decreases |f.messages|
  {
    if Framing(f) {
      FramesUnframe(f);
    }
    if Frames(Unframe(f)) == f {
      FramesAreFraming(Unframe(f));
    }
  }

  lemma FirstMessage(m: string, rest: string)
    requires IndexOfSeparator(m + SEPARATOR) == |m|
    ensures Frames(m + SEPARATOR + rest) == Prepend(m, Frames(rest))
  {
    FirstStaysFirst(m + SEPARATOR, rest, |m|);
    var s := m + SEPARATOR + rest;
    assert s[..|m|] == m && s[|m| + 4..] == rest;
  }

  lemma {:induction false} FramesUnframe(f: Framed)
    requires Framing(f)
    ensures Frames(Unframe(f)) == f
    decreases |f.messages|
  {
    if f.messages != [] {
      var m, tail := f.messages[0], Framed(f.messages[1..], f.rest);
      FramesUnframe(tail);
      FirstMessage(m, Unframe(tail));
      assert f == Prepend(m, tail);
    }
  }
}
