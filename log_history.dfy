/**
  The rolling log of the dashboard: a newest-first list of timestamped lines,
  capped at five entries (`log_message` in op.py).
 */
module LogHistory {

  /** The cap on the number of log lines kept. */
  const MaxLogs: nat := 5

  /** A log line: the timestamp in brackets, then the message. */
  function Entry(timestamp: string, message: string): (e: string)
    ensures |e| == |timestamp| + |message| + 3
    ensures e[0] == '[' && e[|timestamp| + 1..|timestamp| + 3] == "] "
    ensures e[1..|timestamp| + 1] == timestamp && e[|timestamp| + 3..] == message
  {
    "[" + timestamp + "] " + message
  }

  /**
    The history after logging `e`: `e` goes in front and, when the list has
    grown beyond the cap, the last (oldest) line is dropped.
   */
  function Push(h: seq<string>, e: string): (r: seq<string>)
    ensures |r| == if |h| < MaxLogs then |h| + 1 else |h|
    ensures r[0] == e
    ensures r[1..] == h[..|r| - 1]
  {
    var inserted := [e] + h;
    if |inserted| > MaxLogs then inserted[..|inserted| - 1] else inserted
  }

  /** For a history within the cap, the tail after a push is the old first min(n, 4) lines. */
  lemma PushKeepsNewest(h: seq<string>, e: string)
    requires |h| <= MaxLogs
    ensures |Push(h, e)| <= MaxLogs
    ensures Push(h, e)[1..] == h[..if |h| < MaxLogs - 1 then |h| else MaxLogs - 1]
  {
  }

  /** The first (newest) `MaxLogs` elements of `s`, or all of `s` when it is shorter. */
  function Newest(s: seq<string>): (r: seq<string>)
    ensures |r| <= MaxLogs
  {
    if |s| <= MaxLogs then s else s[..MaxLogs]
  }

  function Reversed(s: seq<string>): (r: seq<string>)
    ensures |r| == |s|
  {
    if s == [] then [] else [s[|s| - 1]] + Reversed(s[..|s| - 1])
  }

  /** The history after logging the entries `es` one after another, in order. */
  function PushAll(h: seq<string>, es: seq<string>): seq<string> {
    if es == [] then h else Push(PushAll(h, es[..|es| - 1]), es[|es| - 1])
  }

  lemma NewestOfNewest(a: seq<string>, b: seq<string>)
    ensures Newest(a + Newest(b)) == Newest(a + b)
  {
  }

  lemma {:induction false} ReversedAppend(a: seq<string>, b: seq<string>)
    ensures Reversed(a + b) == Reversed(b) + Reversed(a)
  {
    if b == [] {
      assert a + b == a;
    } else {
      assert (a + b)[..|a + b| - 1] == a + b[..|b| - 1];
      ReversedAppend(a, b[..|b| - 1]);
    }
  }

  /**
    After any sequence of log calls starting from a history within the cap, the
    history is the newest `MaxLogs` lines of "the entries, latest first, followed
    by the old history": it never exceeds the cap and stays newest-first.
   */
  lemma {:induction false} PushAllKeepsNewest(h: seq<string>, es: seq<string>)
    requires |h| <= MaxLogs
    ensures PushAll(h, es) == Newest(Reversed(es) + h)
  {
    if es == [] {
      assert Reversed(es) + h == h;
    } else {
      var pre, e := es[..|es| - 1], es[|es| - 1];
      PushAllKeepsNewest(h, pre);
      var mid := Reversed(pre) + h;
      assert PushAll(h, es) == Push(Newest(mid), e);
      assert Push(Newest(mid), e) == Newest([e] + Newest(mid));
      NewestOfNewest([e], mid);
      assert Reversed(es) == [e] + Reversed(pre);
      assert [e] + mid == Reversed(es) + h;
    }
  }

  /** Once at least `MaxLogs` lines have been logged, the history is exactly the last `MaxLogs` of them, latest first. */
  lemma {:induction false} LastFiveLogged(h: seq<string>, es: seq<string>)
    requires |h| <= MaxLogs && |es| >= MaxLogs
    ensures PushAll(h, es) == Reversed(es[|es| - MaxLogs..])
  {
    PushAllKeepsNewest(h, es);
    var old5, last5 := es[..|es| - MaxLogs], es[|es| - MaxLogs..];
    assert es == old5 + last5;
    ReversedAppend(old5, last5);
    var r5 := Reversed(last5);
    var all := r5 + (Reversed(old5) + h);
    assert Reversed(es) + h == all;
    assert |r5| == MaxLogs;
    assert all[..MaxLogs] == r5;
  }
}
