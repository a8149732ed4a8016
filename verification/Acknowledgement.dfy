/** The collector's reply to a batch and the agent's check of it (src/distributed.rs). */
module Acknowledgement {
  import opened Prelude
  import opened Telemetry

  datatype Rejected = Rejected(messageId: string, reason: string)

  datatype Ack = Ack(
    accepted: seq<string>, highest: Option<nat>, rejected: seq<Rejected>, retryAfterMs: Option<nat>)

  const MAX_RETRY_AFTER_MS := 86_400_000

  function Ids(batch: seq<Envelope>): seq<string> {
    seq(|batch|, i requires 0 <= i < |batch| => batch[i].messageId)
  }

  function RejectedIds(rejected: seq<Rejected>): seq<string> {
    seq(|rejected|, i requires 0 <= i < |rejected| => rejected[i].messageId)
  }

  predicate NoDup<T(==)>(s: seq<T>) {
    forall i, j :: 0 <= i < j < |s| ==> s[i] != s[j]
  }

  function MaxOption(a: Option<nat>, n: nat): Option<nat> {
    if a.Some? && a.value >= n then a else Some(n)
  }

  /** The highest sequence among the records whose id is listed. */
  function HighestListed(batch: seq<Envelope>, ids: seq<string>): Option<nat> {
    if batch == [] then None else
    var last := batch[|batch| - 1];
    var front := HighestListed(batch[..|batch| - 1], ids);
    if last.messageId in ids then MaxOption(front, last.sequence) else front
  }

  /** What the agent demands of a reply: only submitted ids, each decided at most once, with reasons;
      a stated highest sequence that is the accepted records' own; at least one decision. */
  ghost predicate Trustworthy(ack: Ack, batch: seq<Envelope>) {
    var decided := ack.accepted + RejectedIds(ack.rejected);
    && NoDup(decided)
    && (forall id | id in decided :: id in Ids(batch))
    && (forall r | r in ack.rejected :: !IsBlank(r.reason))
    && (ack.highest.Some? ==> HighestListed(batch, ack.accepted) == ack.highest)
    && (ack.retryAfterMs.Some? ==> ack.retryAfterMs.value <= 24 * 60 * 60 * 1000)
    && decided != []
  }

  /** The ids decided so far, as a sequence without repetition and as the set the check keeps. */
  ghost predicate DecidedSoFar(batch: seq<Envelope>, prefix: seq<string>, decided: set<string>) {
    && NoDup(prefix)
    && (forall id :: id in decided <==> id in prefix)
    && (forall id | id in prefix :: id in Ids(batch))
  }

  lemma DecideOne(batch: seq<Envelope>, prefix: seq<string>, decided: set<string>, id: string)
    requires DecidedSoFar(batch, prefix, decided)
    ensures id in Ids(batch) && id !in decided ==> DecidedSoFar(batch, prefix + [id], decided + {id})
    ensures id !in Ids(batch) || id in decided ==>
              !(NoDup(prefix + [id]) && forall x | x in prefix + [id] :: x in Ids(batch))
  {
    hide Ids;
    var longer := prefix + [id];
    assert longer[|prefix|] == id && forall j | 0 <= j < |prefix| :: longer[j] == prefix[j];
    assert forall x :: x in longer <==> x in prefix || x == id;
  }

  lemma PrefixFails(batch: seq<Envelope>, prefix: seq<string>, all: seq<string>)
    requires prefix <= all && !(NoDup(prefix) && forall x | x in prefix :: x in Ids(batch))
    ensures !(NoDup(all) && forall x | x in all :: x in Ids(batch))
  {
    hide Ids;
    forall j | 0 <= j < |prefix|
      ensures prefix[j] in all
    {
      assert all[j] == prefix[j];
    }
  }

  method Submitted(batch: seq<Envelope>) returns (ids: set<string>)
    ensures forall id :: id in ids <==> id in Ids(batch)
  {
    ids := set e | e in batch :: e.messageId;
    forall id
      ensures id in ids <==> id in Ids(batch)
    {
      if i :| 0 <= i < |batch| && batch[i].messageId == id {
        assert Ids(batch)[i] == id;
      }
    }
  }

  method Validate(ack: Ack, batch: seq<Envelope>) returns (ok: bool)
    ensures ok <==> Trustworthy(ack, batch)
  {
    hide NoDup, Ids, IsBlank, HighestListed, DecidedSoFar, Trustworthy;
    var submitted := Submitted(batch);
    var decided: set<string> := {};
    ghost var all := ack.accepted + RejectedIds(ack.rejected);
    Nothing(batch);
    WhatDecidedMeans(ack, batch);
    for i := 0 to |ack.accepted|
      invariant DecidedSoFar(batch, all[..i], decided)
    {
      var id := ack.accepted[i];
      DecideOne(batch, all[..i], decided, id);
      assert all[..i + 1] == all[..i] + [id];
      if id !in submitted || id in decided {
        PrefixFails(batch, all[..i + 1], all);
        return false;
      }
      decided := decided + {id};
    }
    for i := 0 to |ack.rejected|
      invariant DecidedSoFar(batch, all[..|ack.accepted| + i], decided)
      invariant forall j | 0 <= j < i :: !IsBlank(ack.rejected[j].reason)
    {
      var r := ack.rejected[i];
      ghost var n := |ack.accepted| + i;
      DecideOne(batch, all[..n], decided, r.messageId);
      assert all[..n + 1] == all[..n] + [r.messageId];
      if r.messageId !in submitted || r.messageId in decided {
        PrefixFails(batch, all[..n + 1], all);
        return false;
      }
      if IsBlank(r.reason) {
        return false;
      }
      decided := decided + {r.messageId};
    }
    assert all[..|all|] == all;
    AllDecided(batch, all, decided);
    ok := && (ack.highest.None? || HighestListed(batch, ack.accepted) == ack.highest)
          && (ack.retryAfterMs.None? || ack.retryAfterMs.value <= MAX_RETRY_AFTER_MS)
          && decided != {};
  }

  lemma WhatDecidedMeans(ack: Ack, batch: seq<Envelope>)
    ensures var decided := ack.accepted + RejectedIds(ack.rejected);
            Trustworthy(ack, batch) <==>
              && (NoDup(decided) && forall id | id in decided :: id in Ids(batch))
              && (forall j | 0 <= j < |ack.rejected| :: !IsBlank(ack.rejected[j].reason))
              && (ack.highest.Some? ==> HighestListed(batch, ack.accepted) == ack.highest)
              && (ack.retryAfterMs.Some? ==> ack.retryAfterMs.value <= MAX_RETRY_AFTER_MS)
              && decided != []
  {
    hide NoDup, Ids, IsBlank, HighestListed;
  }

  lemma AllDecided(batch: seq<Envelope>, all: seq<string>, decided: set<string>)
    requires DecidedSoFar(batch, all, decided)
    ensures NoDup(all) && (forall id | id in all :: id in Ids(batch)) && (all == [] <==> decided == {})
  {
    hide NoDup, Ids;
    assert all != [] ==> all[0] in decided;
  }

  lemma Nothing(batch: seq<Envelope>)
    ensures DecidedSoFar(batch, [], {})
  {
  }

  /** A sequence has no repetition exactly when its multiset has none. */
  lemma {:induction false} NoDupByCount<T>(s: seq<T>)
    ensures NoDup(s) <==> forall x :: multiset(s)[x] <= 1
  {
    if s != [] {
      var n := |s| - 1;
      var front, last := s[..n], s[n];
      NoDupByCount(front);
      assert s == front + [last];
      if last in front {
        assert multiset(s)[last] >= 2;
        var j :| 0 <= j < n && front[j] == last;
        assert s[j] == s[n];
      } else {
        assert multiset(front)[last] == 0;
        assert NoDup(front) ==> NoDup(s);
        assert forall x :: multiset(s)[x] == multiset(front)[x] + if x == last then 1 else 0;
        if NoDup(s) {
          assert forall i, j | 0 <= i < j < n :: front[i] == s[i] && front[j] == s[j];
        }
        if forall x :: multiset(s)[x] <= 1 {
          assert forall x :: multiset(front)[x] <= multiset(s)[x];
        }
      }
    }
  }
}
