/** When a settle read settles, in plain bytes and milliseconds (`read_with_settle` in src/domain/output.rs). */
module SettleMeaning {
  import opened Bytes
  import opened OutputBuffer
  import opened OutputEngine

  /** What is unread after the first `n` polls. */
  function Seen(history: seq<byte>, size: nat, mark: nat, polls: seq<Poll>, n: nat): seq<byte>
    requires n <= |polls|
  {
    Unread(Arrived(history, polls, n), size, mark)
  }

  /** A dollar, hash or greater-than sign, and a blank. */
  predicate EndsInPrompt(data: seq<byte>) {
    |data| >= 2 && data[|data| - 2..] in {[0x24, 0x20], [0x23, 0x20], [0x3E, 0x20]}
  }

  /** What is unread has not changed since `k` polls, when it was new; `upTo` polls are looked at. */
  predicate UnchangedSince(history: seq<byte>, size: nat, mark: nat, polls: seq<Poll>, k: nat, upTo: nat)
    requires k <= upTo <= |polls|
  {
    && (forall j :: k <= j <= upTo ==>
          Seen(history, size, mark, polls, j) == Seen(history, size, mark, polls, k))
    && (k > 0 ==> Seen(history, size, mark, polls, k - 1) != Seen(history, size, mark, polls, k))
  }

  /** The time of poll `k - 1`, or of the start. */
  function TimeOf(start: nat, polls: seq<Poll>, k: nat): nat
    requires k <= |polls|
  {
    if k == 0 then start else polls[k - 1].at
  }

  /** The last change the program has noted after `n` polls is the one `k` polls have brought. */
  predicate NotedChange(history: seq<byte>, size: nat, mark: nat, start: nat, polls: seq<Poll>, k: nat, n: nat)
    requires k <= n <= |polls|
  {
    && UnchangedSince(history, size, mark, polls, k, n)
    && LastChange(history, size, mark, start, polls, n) == TimeOf(start, polls, k)
  }

  lemma StillUnchanged(history: seq<byte>, size: nat, mark: nat, polls: seq<Poll>, k: nat, n: nat)
    requires k <= n < |polls| && UnchangedSince(history, size, mark, polls, k, n)
    requires Seen(history, size, mark, polls, n + 1) == Seen(history, size, mark, polls, n)
    ensures UnchangedSince(history, size, mark, polls, k, n + 1)
  {
  }

  lemma {:induction false} NotedAtFirst(history: seq<byte>, size: nat, mark: nat, start: nat, polls: seq<Poll>)
    ensures NotedChange(history, size, mark, start, polls, 0, 0)
  {
  }

  lemma {:induction false} NotedAgain(
    history: seq<byte>, size: nat, mark: nat, start: nat, polls: seq<Poll>, k: nat, n: nat)
    requires k <= n < |polls| && NotedChange(history, size, mark, start, polls, k, n)
    requires Seen(history, size, mark, polls, n + 1) == Seen(history, size, mark, polls, n)
    ensures NotedChange(history, size, mark, start, polls, k, n + 1)
  {
    StillUnchanged(history, size, mark, polls, k, n);
  }

  lemma {:induction false} NotedAnew(history: seq<byte>, size: nat, mark: nat, start: nat, polls: seq<Poll>, n: nat)
    requires n < |polls| && Seen(history, size, mark, polls, n + 1) != Seen(history, size, mark, polls, n)
    ensures NotedChange(history, size, mark, start, polls, n + 1, n + 1)
  {
  }

  lemma {:induction false} NotedNext(
    history: seq<byte>, size: nat, mark: nat, start: nat, polls: seq<Poll>, k: nat, m: nat, n: nat) returns (l: nat)
    requires k <= m < |polls| && n == m + 1 && NotedChange(history, size, mark, start, polls, k, m)
    ensures l <= n && NotedChange(history, size, mark, start, polls, l, n)
  {
    if Seen(history, size, mark, polls, m + 1) == Seen(history, size, mark, polls, m) {
      l := k;
      NotedAgain(history, size, mark, start, polls, k, m);
    } else {
      l := m + 1;
      NotedAnew(history, size, mark, start, polls, m);
    }
  }

  lemma {:induction false} LastChangeMeaning(
    history: seq<byte>, size: nat, mark: nat, start: nat, polls: seq<Poll>, n: nat) returns (k: nat)
    requires n <= |polls|
    ensures k <= n && NotedChange(history, size, mark, start, polls, k, n)
  {
    if n == 0 {
      k := 0;
      NotedAtFirst(history, size, mark, start, polls);
    } else {
      var m: nat := n - 1;
      k := LastChangeMeaning(history, size, mark, start, polls, m);
      k := NotedNext(history, size, mark, start, polls, k, m, n);
    }
  }

  lemma OneChange(history: seq<byte>, size: nat, mark: nat, polls: seq<Poll>, k: nat, l: nat, n: nat)
    requires k <= n <= |polls| && l <= n
    requires UnchangedSince(history, size, mark, polls, k, n) && UnchangedSince(history, size, mark, polls, l, n)
    ensures k == l
  {
  }

  /** Nothing new has been unread for at least 300 ms, at poll `n`, since `k` polls. */
  predicate QuietSince(history: seq<byte>, size: nat, mark: nat, start: nat, polls: seq<Poll>, k: nat, n: nat)
    requires k <= n < |polls|
  {
    UnchangedSince(history, size, mark, polls, k, n + 1) && polls[n].at >= TimeOf(start, polls, k) + 300
  }

  /** The program's test: the same as at the poll before, and 300 ms after the last change it has noted. */
  predicate FoundQuiet(history: seq<byte>, size: nat, mark: nat, start: nat, polls: seq<Poll>, n: nat)
    requires n < |polls|
  {
    && Seen(history, size, mark, polls, n + 1) == Seen(history, size, mark, polls, n)
    && polls[n].at >= LastChange(history, size, mark, start, polls, n) + SETTLE_THRESHOLD_MS
  }

  lemma QuietIsFound(history: seq<byte>, size: nat, mark: nat, start: nat, polls: seq<Poll>, k: nat, n: nat)
    requires k <= n < |polls| && QuietSince(history, size, mark, start, polls, k, n)
    ensures FoundQuiet(history, size, mark, start, polls, n)
  {
    var l := LastChangeMeaning(history, size, mark, start, polls, n);
    OneChange(history, size, mark, polls, k, l, n);
  }

  lemma FoundIsQuiet(history: seq<byte>, size: nat, mark: nat, start: nat, polls: seq<Poll>, n: nat) returns (k: nat)
    requires n < |polls| && FoundQuiet(history, size, mark, start, polls, n)
    ensures k <= n && QuietSince(history, size, mark, start, polls, k, n)
  {
    k := LastChangeMeaning(history, size, mark, start, polls, n);
    StillUnchanged(history, size, mark, polls, k, n);
  }

  /** Poll `n` settles exactly when there is unread output after it, and the output ends in a prompt, or has been
  the same from some number of polls on until now, for at least 300 ms. */
  lemma SettlesExactly(history: seq<byte>, size: nat, mark: nat, start: nat, polls: seq<Poll>, n: nat)
    requires n < |polls|
    ensures Settles(history, size, mark, start, polls, n)
            <==>
            && Seen(history, size, mark, polls, n + 1) != []
            && (|| EndsInPrompt(Seen(history, size, mark, polls, n + 1))
                || exists k :: 0 <= k <= n && QuietSince(history, size, mark, start, polls, k, n))
  {
    PromptMeaning(Seen(history, size, mark, polls, n + 1));
    if FoundQuiet(history, size, mark, start, polls, n) {
      var k := FoundIsQuiet(history, size, mark, start, polls, n);
    }
    forall k | 0 <= k <= n && QuietSince(history, size, mark, start, polls, k, n)
      ensures FoundQuiet(history, size, mark, start, polls, n)
    {
      QuietIsFound(history, size, mark, start, polls, k, n);
    }
  }

  lemma PromptMeaning(data: seq<byte>)
    ensures HasPromptSuffix(data) <==> EndsInPrompt(data)
  {
    if |data| >= 2 {
      assert data[|data| - 2..] == [data[|data| - 2], data[|data| - 1]];
    }
  }

  /** Output that came 50 ms ago has not settled, however long the read has been going on. */
  lemma FreshOutputIsNotSettled()
    ensures !Settles([], 10, 0, 0, [Poll([0x61], 400), Poll([], 450)], 1)
    ensures Settles([], 10, 0, 0, [Poll([0x61], 400), Poll([], 700)], 1)
  {
    var a, b := [Poll([0x61], 400), Poll([], 450)], [Poll([0x61], 400), Poll([], 700)];
    assert [] + [0x61] == [0x61] && [0x61] + [] == [0x61];
    assert Seen([], 10, 0, a, 0) == [] && Seen([], 10, 0, a, 1) == [0x61] && Seen([], 10, 0, a, 2) == [0x61];
    assert Seen([], 10, 0, b, 0) == [] && Seen([], 10, 0, b, 1) == [0x61] && Seen([], 10, 0, b, 2) == [0x61];
  }
}
