/**
 * The audit-log reader: the newest 100 audit rows, newest first
 * (`orderBy: { timestamp: "desc" }, take: 100`).
 */
module AuditLogRead {
  import opened Schema

  const PageSize: nat := 100

  ghost predicate NewestFirst(s: seq<AuditRow>) {
    forall i, j :: 0 <= i < j < |s| ==> s[i].timestamp >= s[j].timestamp
  }

  /** Puts `x` into a newest-first sequence, ahead of every row that is not newer than it. */
  function InsertByTime(x: AuditRow, s: seq<AuditRow>): (r: seq<AuditRow>)
    requires NewestFirst(s)
    ensures NewestFirst(r)
    ensures multiset(r) == multiset(s) + multiset{x}
  {
    if s == [] || x.timestamp >= s[0].timestamp then
      [x] + s
    else
      var rest := InsertByTime(x, s[1..]);
      assert s == [s[0]] + s[1..];
      HeadNotOlder(s);
      PrependNewest(s[0], rest);
      assert multiset([s[0]] + rest) == multiset{s[0]} + multiset(rest);
      [s[0]] + rest
  }

  /** The head of a newest-first sequence is not older than any other row in it. */
  lemma HeadNotOlder(s: seq<AuditRow>)
    requires NewestFirst(s) && s != []
    ensures forall y :: y in multiset(s[1..]) ==> y.timestamp <= s[0].timestamp
  {
    forall y | y in multiset(s[1..])
      ensures y.timestamp <= s[0].timestamp
    {
      var j :| 0 <= j < |s[1..]| && s[1..][j] == y;
      assert s[j + 1] == y;
    }
  }

  /** A row not older than any row of a newest-first sequence can go in front of it. */
  lemma PrependNewest(h: AuditRow, rest: seq<AuditRow>)
    requires NewestFirst(rest)
    requires forall y :: y in multiset(rest) ==> y.timestamp <= h.timestamp
    ensures NewestFirst([h] + rest)
  {
    var r := [h] + rest;
    forall i, j | 0 <= i < j < |r|
      ensures r[i].timestamp >= r[j].timestamp
    {
      assert r[j] == rest[j - 1] && rest[j - 1] in multiset(rest);
      if i > 0 {
        assert r[i] == rest[i - 1];
      }
    }
  }

  /** The log ordered by timestamp, newest first; the order among equal timestamps is the store's choice. */
  function SortNewestFirst(log: seq<AuditRow>): (r: seq<AuditRow>)
    ensures NewestFirst(r)
    ensures multiset(r) == multiset(log)
  {
    if log == [] then []
    else
      assert log == [log[0]] + log[1..];
      InsertByTime(log[0], SortNewestFirst(log[1..]))
  }

  /** In a newest-first sequence, nothing after position `k` is newer than anything before it. */
  lemma {:induction false} TailNotNewer(s: seq<AuditRow>, k: nat)
    requires NewestFirst(s) && k <= |s|
    ensures forall x, y :: x in multiset(s) - multiset(s[..k]) && y in s[..k] ==> x.timestamp <= y.timestamp
  {
    assert s == s[..k] + s[k..];
    assert multiset(s) - multiset(s[..k]) == multiset(s[k..]);
    forall x, y | x in multiset(s[k..]) && y in s[..k]
      ensures x.timestamp <= y.timestamp
    {
      assert x in s[k..];
      var j :| 0 <= j < |s[k..]| && s[k..][j] == x;
      var i :| 0 <= i < k && s[..k][i] == y;
      assert s[i] == y && s[k + j] == x;
    }
  }

  /** A prefix of a newest-first sequence is newest-first and is part of it. */
  lemma PrefixNewestFirst(s: seq<AuditRow>, k: nat)
    requires NewestFirst(s) && k <= |s|
    ensures NewestFirst(s[..k])
    ensures multiset(s[..k]) <= multiset(s)
  {
    assert s == s[..k] + s[k..];
  }

  /**
   * What the reader returns: at most 100 rows taken from the log, newest first,
   * and no row left out is strictly newer than any row returned.
   */
  function Newest(log: seq<AuditRow>): (r: seq<AuditRow>)
    ensures |r| == if |log| < PageSize then |log| else PageSize
    ensures NewestFirst(r)
    ensures multiset(r) <= multiset(log)
    ensures forall x, y :: x in multiset(log) - multiset(r) && y in r ==> x.timestamp <= y.timestamp
  {
    var sorted := SortNewestFirst(log);
    var k := if |sorted| < PageSize then |sorted| else PageSize;
    TailNotNewer(sorted, k);
    PrefixNewestFirst(sorted, k);
    sorted[..k]
  }
}

/** The audit-log endpoint's business handler. */
module AuditLogHandler {
  import opened Wrappers
  import opened Schema
  import opened Http
  import opened AuditLogRead

  function ReadAuditLog(t: Tables, req: Request, user: User): (s: Step)
    // reading never writes: the store, the audit table included, is unchanged
    ensures s.store == t && !s.out.threw && s.out.reply.Some?
    ensures req.verb == Some("GET") ==> s.out.reply.value == Reply(200, AuditBody(Newest(t.audit)))
    ensures req.verb != Some("GET") ==> s.out.reply.value == MethodNotAllowed
  {
    if req.verb == Some("GET") then Step(t, Answer(Reply(200, AuditBody(Newest(t.audit)))))
    else Step(t, Answer(MethodNotAllowed))
  }
}
