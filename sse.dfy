/** The server-push connection registry (lib/sse.ts), and the part of the
    server-sent-events stream format (WHATWG HTML Living Standard, section 9.2.6,
    "Interpreting an event stream") that reads the frames it writes back as events. */
module Sse {

  /** A stream controller, known only by identity. */
  type ControllerId = nat

  /** `data: ${payload}\n\n`: one event whose data is the payload. */
  function Frame(payload: string): (f: string)
    ensures |f| == |payload| + 8
    ensures f[..6] == "data: " && f[6..|f| - 2] == payload && f[|f| - 2..] == "\n\n"
    ensures (forall i :: 0 <= i < |payload| ==> payload[i] != '\n') ==> forall i :: 0 <= i < |f| - 2 ==> f[i] != '\n'
  {
    "data: " + payload + "\n\n"
  }

  /** The registry, and what each controller has been handed so far (its queue). */
  class Registry {
    var connections: set<ControllerId>
    var queued: map<ControllerId, seq<string>>

    constructor ()
      ensures connections == {} && queued == map[]
    {
      connections, queued := {}, map[];
    }

    /** The frames handed to `c`. */
    function Received(c: ControllerId): seq<string>
      reads this
    {
      Queue(queued, c)
    }

    /** `addSSEConnection`: a set, so adding twice keeps one entry. */
    method Add(c: ControllerId)
      modifies this
      ensures connections == old(connections) + {c}
      ensures queued == old(queued)
    {
      connections := connections + {c};
    }

    /** `removeSSEConnection`: only `c` goes. */
    method Remove(c: ControllerId)
      modifies this
      ensures connections == old(connections) - {c}
      ensures queued == old(queued)
    {
      connections := connections - {c};
    }

    /** `broadcastEvent`: every registered controller is tried once with the same
        frame; those in `failing` (their `enqueue` throws, the stream being closed) are
        deleted, the others receive the frame. */
    method Broadcast(payload: string, failing: set<ControllerId>) returns (delivered: set<ControllerId>)
      modifies this
      ensures delivered == old(connections) - failing
      ensures connections == old(connections) - failing
      ensures forall c :: Received(c) == old(Received(c)) + (if c in delivered then [Frame(payload)] else [])
    {
      var frame := Frame(payload);
      var remaining := connections;
      delivered := {};
      ghost var before, q0 := connections, queued;
      while remaining != {}
        invariant remaining <= before
        invariant forall c :: c in delivered <==> c in before && c !in remaining && c !in failing
        invariant forall c :: c in connections <==> c in before && (c in remaining || c !in failing)
        invariant forall c :: Queue(queued, c) == Queue(q0, c) + (if c in delivered then [frame] else [])
        decreases |remaining|
      {
        var c :| c in remaining;
        if c in failing {
          connections := connections - {c};
        } else {
          queued := queued[c := Queue(queued, c) + [frame]];
          delivered := delivered + {c};
        }
        remaining := remaining - {c};
      }
    }
  }

  /** A controller's queue in a map of queues. */
  function Queue(q: map<ControllerId, seq<string>>, c: ControllerId): seq<string> {
    if c in q then q[c] else []
  }

  predicate IsLineEnd(ch: char) {
    ch == '\n' || ch == '\r'
  }

  /** Position of the first `c` in `s`, or `|s|`. */
  function IndexOf(s: string, c: char): (i: nat)
    ensures i <= |s|
    ensures i < |s| ==> s[i] == c
    ensures forall j :: 0 <= j < i ==> s[j] != c
  {
    if s == [] then 0 else if s[0] == c then 0 else 1 + IndexOf(s[1..], c)
  }

  /** One non-empty line: a `data` field appends its value and a line feed to the data
      buffer; comments and other fields leave it alone. The value follows the first colon,
      less one leading space; a line without a colon is a field with an empty value. */
  function ProcessLine(line: string, buffer: string): string {
    var i := IndexOf(line, ':');
    var field := line[..i];
    var value := if i == |line| then "" else
      var rest := line[i + 1..];
      if rest != [] && rest[0] == ' ' then rest[1..] else rest;
    if field == "data" then buffer + value + "\n" else buffer
  }

  /** The events a client fires for `stream`, given the line read so far and the data
      buffer. An empty line dispatches the buffer, less its final line feed, unless it
      is empty; CR, LF and CRLF all end a line; an event cut off by the end of the
      stream is not fired. */
  function Events(stream: string, line: string, buffer: string): seq<string>
    decreases |stream|
  {
    if stream == [] then []
    else if IsLineEnd(stream[0]) then
      var next := if stream[0] == '\r' && |stream| > 1 && stream[1] == '\n' then stream[2..] else stream[1..];
      if line == [] then
        (if buffer == [] then [] else [buffer[..|buffer| - 1]]) + Events(next, [], [])
      else
        Events(next, [], ProcessLine(line, buffer))
    else Events(stream[1..], line + [stream[0]], buffer)
  }

  /** Characters that end no line just accumulate. */
  lemma {:induction false} ReadLine(s: string, rest: string, line: string, buffer: string)
    requires forall k :: 0 <= k < |s| ==> !IsLineEnd(s[k])
    ensures Events(s + rest, line, buffer) == Events(rest, line + s, buffer)
    decreases |s|
  {
    if s == [] {
      assert s + rest == rest && line + s == line;
    } else {
      assert (s + rest)[0] == s[0] && !IsLineEnd(s[0]);
      assert (s + rest)[1..] == s[1..] + rest;
      ReadLine(s[1..], rest, line + [s[0]], buffer);
      assert line + [s[0]] + s[1..] == line + s;
    }
  }

  /** Skipping a prefix without `c`. */
  lemma {:induction false} IndexOfSkip(s: string, c: char, n: nat)
    requires n <= |s| && forall j :: 0 <= j < n ==> s[j] != c
    ensures IndexOf(s, c) == n + IndexOf(s[n..], c)
    decreases n
  {
    if n > 0 {
      assert s[1..][n - 1..] == s[n..];
      IndexOfSkip(s[1..], c, n - 1);
    }
  }

  /** The line `data: <payload>` puts the payload and a line feed in an empty buffer,
      whatever colons the payload holds. */
  lemma DataLine(payload: string)
    ensures ProcessLine("data: " + payload, []) == payload + "\n"
  {
    var head := "data: " + payload;
    assert head[..4] == "data";
    assert head[4..] == ": " + payload;
    IndexOfSkip(head, ':', 4);
    assert head[5..] == " " + payload;
  }

  /** The blank line that ends a frame fires the buffer, less its final line feed. */
  lemma Dispatch(payload: string, rest: string)
    ensures Events("\n" + rest, [], payload + "\n") == [payload] + Events(rest, [], [])
  {
    var buffer := payload + "\n";
    assert ("\n" + rest)[0] == '\n';
    assert ("\n" + rest)[1..] == rest;
    assert buffer[..|buffer| - 1] == payload;
  }

  /** A client reading one frame fires exactly one event, with the payload as its data,
      whenever the payload holds no line break (as `JSON.stringify` output does not). */
  lemma {:induction false} FrameRoundTrip(payload: string, rest: string)
    requires forall k :: 0 <= k < |payload| ==> !IsLineEnd(payload[k])
    ensures Events(Frame(payload) + rest, [], []) == [payload] + Events(rest, [], [])
  {
    var head := "data: " + payload;
    var tail := "\n\n" + rest;
    assert forall k :: 0 <= k < |head| ==> !IsLineEnd(head[k]);
    assert Frame(payload) + rest == head + tail;
    ReadLine(head, tail, [], []);
    assert [] + head == head;
    DataLine(payload);
    assert tail[0] == '\n' && tail[1..] == "\n" + rest;
    assert Events(tail, head, []) == Events("\n" + rest, [], payload + "\n");
    Dispatch(payload, rest);
  }

  /** The frames handed to a controller, concatenated as its stream delivers them. */
  function Concat(frames: seq<string>): string {
    if frames == [] then [] else frames[0] + Concat(frames[1..])
  }

  function Frames(payloads: seq<string>): (fs: seq<string>)
    ensures |fs| == |payloads|
    ensures forall k :: 0 <= k < |payloads| ==> fs[k] == Frame(payloads[k])
  {
    seq(|payloads|, k requires 0 <= k < |payloads| => Frame(payloads[k]))
  }

  /** A client reading a run of broadcasts sees their payloads as events, in order. */
  lemma {:induction false} BroadcastsRoundTrip(payloads: seq<string>)
    requires forall p, k :: p in payloads && 0 <= k < |p| ==> !IsLineEnd(p[k])
    ensures Events(Concat(Frames(payloads)), [], []) == payloads
    decreases |payloads|
  {
    if payloads != [] {
      assert Frames(payloads)[1..] == Frames(payloads[1..]);
      FrameRoundTrip(payloads[0], Concat(Frames(payloads[1..])));
      BroadcastsRoundTrip(payloads[1..]);
      assert payloads == [payloads[0]] + payloads[1..];
    }
  }
}
