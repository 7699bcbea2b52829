/** The bounded demo log of pages/api/demo/_store.ts: newest entry first, at most 20 kept. The
    ISO timestamp of an entry is the instant `now` passed in. */
module DemoLog {
  datatype Entry = Entry(ts: int, action: string, outcome: string)

  const Cap := 20

  /** `addLog(action, outcome)` at time `now`. */
  function AddLog(logs: seq<Entry>, action: string, outcome: string, now: int): (r: seq<Entry>)
    ensures |r| <= Cap
    ensures |r| > 0 && r[0] == Entry(now, action, outcome)
    ensures r[1..] <= logs
    ensures |r| == if |logs| + 1 <= Cap then |logs| + 1 else Cap
  {
    var l := [Entry(now, action, outcome)] + logs;
    if |l| > Cap then l[..Cap] else l
  }

  /** `getLogs()`: the list as stored. */
  function GetLogs(logs: seq<Entry>): seq<Entry> {
    logs
  }

  /** Adding entries one at a time. */
  function AddAll(logs: seq<Entry>, es: seq<(string, string, int)>): seq<Entry>
    decreases |es|
  {
    if |es| == 0 then logs else AddAll(AddLog(logs, es[0].0, es[0].1, es[0].2), es[1..])
  }

  /** Every earlier entry moves back by one place, and only the 21st falls off. */
  lemma AddLogShifts(logs: seq<Entry>, action: string, outcome: string, now: int, i: nat)
    requires i + 1 < Cap && i < |logs|
    ensures AddLog(logs, action, outcome, now)[i + 1] == logs[i]
  {
  }

  /** However many entries are added, the log stays within 20 and its front is the last one added. */
  lemma {:induction false} AddAllBounded(logs: seq<Entry>, es: seq<(string, string, int)>)
    requires |logs| <= Cap
    ensures |AddAll(logs, es)| <= Cap
    ensures |es| > 0 ==> var l := es[|es| - 1];
      |AddAll(logs, es)| > 0 && AddAll(logs, es)[0] == Entry(l.2, l.0, l.1)
    decreases |es|
  {
    if |es| > 0 {
      var next := AddLog(logs, es[0].0, es[0].1, es[0].2);
      AddAllBounded(next, es[1..]);
      if |es| > 1 {
        assert es[1..][|es[1..]| - 1] == es[|es| - 1];
      }
    }
  }
}
