/**
 * What a service record must hold to be accepted, written out; and what the runner writes into one.
 */
module BatchAcceptance {
  import opened Common
  import opened Decimal
  import opened ServiceBatches

  /** Decimal text, digit by digit. */
  lemma TextIs(n: nat, d: nat)
    requires d < 10
    ensures Text(10 * n + d) == (if n == 0 then "" else Text(n)) + ["0123456789"[d]]
  {
    assert "" + [DigitOf(d)] == [DigitOf(d)];
  }

  /** The texts of the ids, as the runner writes and the check expects them. */
  lemma IdsAre(level: nat, repetition: string, slot: nat)
    ensures BatchPrefix(level) == "context-pack-concurrency:" + Text(level) + ":batch:"
    ensures RequestId(level, repetition, slot) ==
            "context-pack-concurrency:" + Text(level) + ":" + repetition + ":" + Text(slot)
  {
    hide Text;
    var head := "context-pack-concurrency:" + Text(level);
    assert head + ":" + "batch:" == head + ":batch:";
    assert head + ":" + (repetition + ([':'] + Text(slot))) == head + ":" + repetition + ":" + Text(slot);
  }

  /** Numbers that are no less than zero. */
  predicate AllTimes(ns: seq<Num>) {
    forall i :: 0 <= i < |ns| ==> ns[i].Number? && 0.0 <= ns[i].value
  }

  /** Names that are not blank, none of them twice. */
  predicate AllUnique(ids: seq<Id>) {
    && (forall i :: 0 <= i < |ids| ==> ids[i].Name? && !PythonBlank(ids[i].text))
    && forall i, j :: 0 <= i < |ids| && 0 <= j < |ids| && ids[i] == ids[j] ==> i == j
  }

  /** One batch of a level: one time and one id for every slot of its repetition, and a positive rate. */
  ghost predicate SoundBatch(
    level: nat, batchId: Id, latencies: Option<seq<Num>>, ids: Option<seq<Id>>, throughput: Num, isDecimal: char -> bool)
  {
    && throughput.Number? && throughput.value > 0.0
    && latencies.Some? && |latencies.value| == level && AllTimes(latencies.value)
    && ids.Some? && |ids.value| == level
    && exists repetition ::
         && AllDecimal(repetition, isDecimal)
         && batchId == Name("context-pack-concurrency:" + Text(level) + ":batch:" + repetition)
         && NamesSlots(level, repetition, ids.value)
  }

  /** The names are those of the slots of the repetition. */
  ghost predicate NamesSlots(level: nat, repetition: string, ids: seq<Id>) {
    && (forall i :: 0 <= i < |ids| ==> exists slot | 0 <= slot < level :: ids[i] == SlotName(level, repetition, slot))
    && forall slot :: 0 <= slot < level ==> SlotName(level, repetition, slot) in ids
  }

  function SlotName(level: nat, repetition: string, slot: nat): Id {
    Name("context-pack-concurrency:" + Text(level) + ":" + repetition + ":" + Text(slot))
  }

  lemma NamesAreSlots(level: nat, repetition: string, ids: seq<Id>)
    ensures NamesSlots(level, repetition, ids) <==>
            (forall i :: 0 <= i < |ids| ==> Usable(ids[i])) && Names(ids) == ExpectedIds(level, repetition)
  {
    hide Text, RequestId, Usable, SlotName;
    forall slot: nat
      ensures SlotName(level, repetition, slot) == Name(RequestId(level, repetition, slot))
      ensures Usable(SlotName(level, repetition, slot))
    {
      SlotIsRequest(level, repetition, slot);
    }
    if NamesSlots(level, repetition, ids) {
      forall t ensures t in Names(ids) <==> t in ExpectedIds(level, repetition) {
        if t in ExpectedIds(level, repetition) {
          var slot :| 0 <= slot < level && t == RequestId(level, repetition, slot);
          assert SlotName(level, repetition, slot) in ids;
        }
      }
    }
    if (forall i :: 0 <= i < |ids| ==> Usable(ids[i])) && Names(ids) == ExpectedIds(level, repetition) {
      forall i | 0 <= i < |ids| ensures exists slot | 0 <= slot < level :: ids[i] == SlotName(level, repetition, slot) {
        SlotOf(level, repetition, ids, i);
      }
      forall slot: nat | slot < level ensures SlotName(level, repetition, slot) in ids {
        assert RequestId(level, repetition, slot) in Names(ids);
      }
      assert NamesSlots(level, repetition, ids);
    }
  }

  lemma SlotOf(level: nat, repetition: string, ids: seq<Id>, i: nat)
    requires i < |ids| && Usable(ids[i]) && Names(ids) == ExpectedIds(level, repetition)
    ensures exists slot | 0 <= slot < level :: ids[i] == SlotName(level, repetition, slot)
  {
    hide Text, RequestId, SlotName;
    assert ids[i].text in Names(ids);
    var slot: nat :| slot < level && ids[i].text == RequestId(level, repetition, slot);
    SlotIsRequest(level, repetition, slot);
  }

  lemma SlotIsRequest(level: nat, repetition: string, slot: nat)
    ensures SlotName(level, repetition, slot) == Name(RequestId(level, repetition, slot))
    ensures Usable(SlotName(level, repetition, slot))
  {
    hide Text;
    IdsAre(level, repetition, slot);
    assert RequestId(level, repetition, slot)[0] == 'c';
  }

  lemma SoundBatchIff(
    level: nat, batchId: Id, latencies: Option<seq<Num>>, ids: Option<seq<Id>>, throughput: Num, isDecimal: char -> bool)
    requires level > 0
    ensures GroupAccepted(level, batchId, latencies, ids, throughput, isDecimal) <==>
            SoundBatch(level, batchId, latencies, ids, throughput, isDecimal)
  {
    hide Text, AllDecimal, NamesSlots, Names, ExpectedIds, BatchPrefix;
    IdsAre(level, "", 0);
    var prefix := BatchPrefix(level);
    if batchId.Name? {
      assert prefix <= batchId.text ==> batchId.text == prefix + RepetitionOf(level, batchId.text);
      forall repetition | batchId.text == prefix + repetition ensures repetition == RepetitionOf(level, batchId.text) {}
      if prefix <= batchId.text && ids.Some? { NamesAreSlots(level, RepetitionOf(level, batchId.text), ids.value); }
      if prefix <= batchId.text {
        assert batchId.text[0] == 'c';
        assert Usable(batchId);
      }
    }
  }

  /** The flat lists hold the batches' requests: each id once, and the same times in some order. */
  lemma AcceptedIff(r: Record, level: nat, isDecimal: char -> bool)
    requires level > 0
    ensures Accepted(r, level, isDecimal) <==>
            && r.samples.Some? && r.sampleIds.Some? && r.batchIds.Some?
            && r.latencies.Some? && r.idGroups.Some? && r.throughputs.Some?
            && |r.batchIds.value| > 0 && AllUnique(r.batchIds.value) && AllUnique(r.sampleIds.value)
            && |r.batchIds.value| == |r.latencies.value| == |r.idGroups.value| == |r.throughputs.value|
            && |r.sampleIds.value| == |r.samples.value| && AllTimes(r.samples.value)
            && (forall b :: 0 <= b < |r.batchIds.value| ==>
                  SoundBatch(level, r.batchIds.value[b], r.latencies.value[b],
                             r.idGroups.value[b], r.throughputs.value[b], isDecimal))
            && Distinct(Flat(r.idGroups.value)) && Names(Flat(r.idGroups.value)) == Names(r.sampleIds.value)
            && multiset(Flat(r.latencies.value)) == multiset(r.samples.value)
  {
    hide GroupAccepted, SoundBatch, Flat, Names;
    if r.batchIds.Some? && r.latencies.Some? && r.idGroups.Some? && r.throughputs.Some?
       && |r.batchIds.value| == |r.latencies.value| == |r.idGroups.value| == |r.throughputs.value| {
      forall b | 0 <= b < |r.batchIds.value|
        ensures GroupAccepted(level, r.batchIds.value[b], r.latencies.value[b],
                              r.idGroups.value[b], r.throughputs.value[b], isDecimal)
           <==> SoundBatch(level, r.batchIds.value[b], r.latencies.value[b],
                           r.idGroups.value[b], r.throughputs.value[b], isDecimal)
      {
        SoundBatchIff(level, r.batchIds.value[b], r.latencies.value[b],
                      r.idGroups.value[b], r.throughputs.value[b], isDecimal);
      }
    }
  }

  /** So many requests per second. */
  predicate IsRate(rate: Num, level: nat, batch: Batch) {
    rate.Number? && batch.Finished? && rate.value * batch.seconds == level as real
  }

  /** The runner's rates are requests per second of the whole batch. */
  lemma {:induction false} ThroughputsAre(level: nat, batches: seq<Batch>)
    requires Positive(batches)
    ensures var ks, rates := FinishedOnes(batches), ListsOf(level, batches).throughputs;
            |rates| == |ks| && forall i :: 0 <= i < |ks| ==> IsRate(rates[i], level, batches[ks[i]])
  {
    hide Numbers, SlotIds, BatchId, IsRate, ListsOf;
    if batches == [] {
      NoLists(level);
    } else {
      var n := |batches| - 1;
      var front, last := batches[..n], batches[n];
      assert forall i :: 0 <= i < n ==> front[i] == batches[i];
      assert Positive(front);
      ThroughputsAre(level, front);
      assert batches == front + [last];
      ListsNext(level, front, last);
      if last.Finished? { RateOf(level, last); }
    }
  }

  lemma RateOf(level: nat, batch: Batch)
    requires batch.Finished? && batch.seconds > 0.0
    ensures IsRate(Number(level as real / batch.seconds), level, batch)
  {
  }
}
