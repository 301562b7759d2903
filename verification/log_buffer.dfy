/**
 The rolling activity log of monitor.py: a `deque(maxlen=MAX_LOG_ENTRIES)` of
 formatted lines, mirrored after every append into a file that is rewritten
 in full with the newline-join of the deque. The lock around `write_log`
 makes each append-and-rewrite one atomic step, so the model treats a write
 as one state transition; the order of the steps is the order in which the
 writers acquired the lock.
 */
module LogBuffer {
  import opened Text

  /** `MAX_LOG_ENTRIES`: capacity of the rolling log. */
  const MaxLogEntries: nat := 5

  /** The last `n` elements of `s`, or all of `s` when it is shorter. */
  function Last(s: seq<string>, n: nat): seq<string>
  {
    if |s| <= n then s else s[|s| - n..]
  }

  /** `deque.append` on a deque with `maxlen = cap`: push at the tail, popping the head when full. */
  function Append(buf: seq<string>, x: string, cap: nat): (r: seq<string>)
    requires |buf| <= cap
    ensures |r| <= cap
    ensures r == Last(buf + [x], cap)
  {
    if |buf| < cap then buf + [x]
    else if cap == 0 then []
    else buf[1..] + [x]
  }

  /** A non-full buffer keeps every entry in order and gains `x` last; a full one loses exactly its oldest entry. */
  lemma AppendEvictsOnlyOldest(buf: seq<string>, x: string, cap: nat)
    requires |buf| <= cap
    ensures |buf| < cap ==> Append(buf, x, cap) == buf + [x]
    ensures 0 < |buf| == cap ==> Append(buf, x, cap) == buf[1..] + [x]
  {
  }

  /** Appending `xs` one at a time, in order. */
  function AppendAll(buf: seq<string>, xs: seq<string>, cap: nat): (r: seq<string>)
    requires |buf| <= cap
    ensures |r| <= cap
    decreases |xs|
  {
    if |xs| == 0 then buf else AppendAll(Append(buf, xs[0], cap), xs[1..], cap)
  }

  /** Trimming to the last `n` before appending more changes nothing about the last `n` afterwards. */
  lemma LastOfLast(s: seq<string>, t: seq<string>, n: nat)
    ensures Last(Last(s, n) + t, n) == Last(s + t, n)
  {
    if |s| > n {
      var a := Last(s, n) + t;
      var b := s + t;
      assert |a| == n + |t|;
      if |a| <= n {
        assert |t| == 0 && a == s[|s| - n..] && b == s;
      } else {
        assert a[|a| - n..] == b[|b| - n..];
      }
    }
  }

  /** FIFO law: after appending `xs`, the buffer holds the last `cap` of the old entries followed by `xs`. */
  lemma {:induction false} AppendAllKeepsNewest(buf: seq<string>, xs: seq<string>, cap: nat)
    requires |buf| <= cap
    ensures AppendAll(buf, xs, cap) == Last(buf + xs, cap)
    decreases |xs|
  {
    if |xs| == 0 {
      assert buf + xs == buf;
    } else {
      var next := Append(buf, xs[0], cap);
      calc {
        AppendAll(buf, xs, cap);
        AppendAll(next, xs[1..], cap);
        { AppendAllKeepsNewest(next, xs[1..], cap); }
        Last(next + xs[1..], cap);
        { LastOfLast(buf + [xs[0]], xs[1..], cap); }
        Last(buf + [xs[0]] + xs[1..], cap);
        { assert buf + [xs[0]] + xs[1..] == buf + xs; }
        Last(buf + xs, cap);
      }
    }
  }

  /** The text `write_log` writes to the mirror file: the entries joined with newlines, no trailing newline. */
  function MirrorText(entries: seq<string>): (text: string)
    ensures |entries| == 0 ==> text == ""
    ensures |entries| > 0 ==> |text| == TotalLength(entries) + |entries| - 1
  {
    Join(entries, "\n")
  }

  /** The deque together with the current contents of the log file. */
  datatype LogState = LogState(entries: seq<string>, file: string)

  /** The buffer is within capacity and the file shows exactly its entries. */
  predicate Mirrored(st: LogState)
  {
    |st.entries| <= MaxLogEntries && st.file == MirrorText(st.entries)
  }

  /** `write_log(message)`: append under the lock, then overwrite the file with the whole buffer. */
  function WriteLog(st: LogState, message: string): (r: LogState)
    requires |st.entries| <= MaxLogEntries
    ensures Mirrored(r)
    ensures 0 < |r.entries| && r.entries[|r.entries| - 1] == message
    ensures r.entries == Last(st.entries + [message], MaxLogEntries)
  {
    var entries := Append(st.entries, message, MaxLogEntries);
    LogState(entries, MirrorText(entries))
  }

  /** The file written by an append does not depend on what the file held before. */
  lemma WriteLogOverwritesFile(entries: seq<string>, oldFile1: string, oldFile2: string, message: string)
    requires |entries| <= MaxLogEntries
    ensures WriteLog(LogState(entries, oldFile1), message) == WriteLog(LogState(entries, oldFile2), message)
  {
  }

  /** A sequence of `write_log` calls, in the order they acquired the lock. */
  function WriteAll(st: LogState, messages: seq<string>): (r: LogState)
    requires |st.entries| <= MaxLogEntries
    ensures |r.entries| <= MaxLogEntries
    ensures r.entries == AppendAll(st.entries, messages, MaxLogEntries)
    decreases |messages|
  {
    if |messages| == 0 then st else WriteAll(WriteLog(st, messages[0]), messages[1..])
  }

  /** After messages m1..mn (n >= 1), the buffer holds the last min(n + old, 5) lines in order and the file mirrors it. */
  lemma {:induction false} WriteAllMirrorsNewest(st: LogState, messages: seq<string>)
    requires |st.entries| <= MaxLogEntries
    requires |messages| > 0
    ensures WriteAll(st, messages).entries == Last(st.entries + messages, MaxLogEntries)
    ensures Mirrored(WriteAll(st, messages))
    decreases |messages|
  {
    AppendAllKeepsNewest(st.entries, messages, MaxLogEntries);
    if |messages| > 1 {
      WriteAllMirrorsNewest(WriteLog(st, messages[0]), messages[1..]);
    }
  }

  /** Starting from an empty deque and whatever file an earlier run left, the log ends as the last five messages. */
  lemma FromStartup(oldFile: string, messages: seq<string>)
    requires |messages| > 0
    ensures WriteAll(LogState([], oldFile), messages).entries == Last(messages, MaxLogEntries)
    ensures WriteAll(LogState([], oldFile), messages).file == MirrorText(Last(messages, MaxLogEntries))
  {
    WriteAllMirrorsNewest(LogState([], oldFile), messages);
    assert [] + messages == messages;
  }

  /** Reading the file back and splitting it on newlines recovers the buffer, when no line holds a newline. */
  lemma {:induction false} MirrorRecoversEntries(st: LogState)
    requires Mirrored(st)
    requires |st.entries| > 0
    requires forall i :: 0 <= i < |st.entries| ==> '\n' !in st.entries[i]
    ensures Split(st.file, '\n') == st.entries
  {
    SplitJoin(st.entries, '\n');
  }

  /** Six lines through a five-line log: the first is evicted and the file holds the other five. */
  lemma SixLinesScenario(oldFile: string)
    ensures WriteAll(LogState([], oldFile), ["L1", "L2", "L3", "L4", "L5", "L6"]).entries == ["L2", "L3", "L4", "L5", "L6"]
    ensures WriteAll(LogState([], oldFile), ["L1", "L2", "L3", "L4", "L5", "L6"]).file == "L2\nL3\nL4\nL5\nL6"
  {
    var ms := ["L1", "L2", "L3", "L4", "L5", "L6"];
    FromStartup(oldFile, ms);
    assert Last(ms, MaxLogEntries) == ms[1..];
    FiveLinesMirror();
  }

  /** The mirror text of the five kept lines of the scenario above. */
  lemma FiveLinesMirror()
    ensures MirrorText(["L2", "L3", "L4", "L5", "L6"]) == "L2\nL3\nL4\nL5\nL6"
  {
    var sep := "\n";
    assert Join(["L6"], sep) == "L6";
    assert ["L5", "L6"][1..] == ["L6"];
    assert Join(["L5", "L6"], sep) == "L5\nL6";
    assert ["L4", "L5", "L6"][1..] == ["L5", "L6"];
    assert Join(["L4", "L5", "L6"], sep) == "L4\nL5\nL6";
    assert ["L3", "L4", "L5", "L6"][1..] == ["L4", "L5", "L6"];
    assert Join(["L3", "L4", "L5", "L6"], sep) == "L3\nL4\nL5\nL6";
    assert ["L2", "L3", "L4", "L5", "L6"][1..] == ["L3", "L4", "L5", "L6"];
  }
}
