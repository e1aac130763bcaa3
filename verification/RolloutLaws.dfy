/** What every reconcile of an in-place deployment keeps, over whole runs: the rollback target and
    the checkpoint of an outstanding request are always there to read, with the right bytes. */
module RolloutLaws {
  import opened Text
  import opened Rollout

  // --- the invariant ---------------------------------------------------------------------------

  ghost predicate Holds(store: map<string, string>, name: string, bytes: string) {
    name != "" && name in store && store[name] == bytes && NonBlank(bytes)
  }

  /** LastSuccessful's ConfigMap holds exactly the bytes recorded at success. */
  ghost predicate Restorable(w: World, name: string) {
    w.lastSuccessful.Some? ==>
      && w.lastSuccessful.value.configMap == ConfigMapName(name, w.lastSuccessful.value.digest)
      && Holds(w.store, w.lastSuccessful.value.configMap, w.successBytes)
  }

  /** A request we still wait for has its checkpoint, and a rollback request restores exactly
      LastSuccessful. */
  ghost predicate Checkpointed(w: World) {
    Outstanding(w) ==>
      && w.processGroup != ""
      && (w.request.value.failure == "" ==>
            && Holds(w.store, w.request.value.configMap, w.requestBytes)
            && (w.request.value.operation == Restore ==>
                  && w.lastSuccessful.Some? && w.lastRollback.Some?
                  && w.request.value.configMap == w.lastSuccessful.value.configMap))
  }

  /** A rollout waits for readiness only after its request is done. */
  ghost predicate Waits(w: World) {
    AwaitsReadiness(w) ==> !Outstanding(w) && w.processGroup != ""
  }

  /** Every successful entry of the history can be read back. */
  ghost predicate HistoryKept(history: seq<Entry>, store: map<string, string>) {
    forall i :: 0 <= i < |history| && history[i].verdict != Failed ==>
      history[i].configMap in store && history[i].configMap != ""
  }

  ghost predicate Bounded(w: World, maxRetries: nat) {
    w.active.Some? ==> 0 <= w.active.value.retries <= maxRetries
  }

  ghost predicate Inv(w: World, name: string, maxRetries: nat) {
    && Restorable(w, name) && Checkpointed(w) && Waits(w)
    && HistoryKept(w.history, w.store) && Bounded(w, maxRetries) && !w.missing
  }

  /** One deployment: its name is fixed, its snapshot is never blank, and its retry budget stays
      within a bound. Everything else may change from one reconcile to the next. */
  ghost predicate Admissible(spec: Spec, name: string, maxRetries: nat) {
    && spec.name == name && NonBlank(spec.snapshot)
    && spec.maxRetries <= maxRetries
  }

  // --- trimming and recording ------------------------------------------------------------------

  /** A trim keeps the newest entries up to the limit. It deletes exactly the ConfigMaps that only
      dropped entries name, LastSuccessful's and refused deletions excepted, and changes none. */
  lemma TrimSpares(w: World, limit: nat, undeleted: set<string>)
    requires limit > 0
    ensures var r := Trim(w, limit, undeleted);
            && r == w.(history := r.history, store := r.store)
            && |r.history| == (if |w.history| <= limit then |w.history| else limit)
            && r.history == w.history[|w.history| - |r.history|..]
            && (forall n :: n in r.store ==> n in w.store && r.store[n] == w.store[n])
            && (forall n :: n in w.store && n in Names(r.history) + Protected(w.lastSuccessful) ==> n in r.store)
            && (forall n :: n in w.store && n !in Names(w.history) ==> n in r.store)
            && (forall n :: n in Names(w.history) - Names(r.history) - Protected(w.lastSuccessful) - undeleted ==>
              n !in r.store)
  {
    if |w.history| > limit {
      var cut := |w.history| - limit;
      NamesExact(w.history[..cut]);
      NamesExact(w.history);
      NamesSplit(w.history, cut);
    }
  }

  lemma NamesSplit(history: seq<Entry>, cut: nat)
    requires cut <= |history|
    ensures Names(history) == Names(history[..cut]) + Names(history[cut..])
  {
    NamesExact(history);
    NamesExact(history[..cut]);
    NamesExact(history[cut..]);
    forall n | n in Names(history) ensures n in Names(history[..cut]) + Names(history[cut..]) {
      var i :| 0 <= i < |history| && history[i].configMap == n;
      if i < cut { assert history[..cut][i] == history[i]; } else { assert history[cut..][i - cut] == history[i]; }
    }
  }

  lemma {:induction false} NamesExact(history: seq<Entry>)
    ensures forall i :: 0 <= i < |history| && history[i].configMap != "" ==> history[i].configMap in Names(history)
    ensures forall n :: n in Names(history) ==> n != "" && exists i :: 0 <= i < |history| && history[i].configMap == n
  {
    if history != [] {
      var before := history[..|history| - 1];
      NamesExact(before);
      forall n | n in Names(history) ensures n != "" && exists i :: 0 <= i < |history| && history[i].configMap == n {
        if n in Names(before) {
          var i :| 0 <= i < |before| && before[i].configMap == n;
          assert history[i].configMap == n;
        }
      }
    }
  }

  lemma SuffixKept(history: seq<Entry>, kept: seq<Entry>, before: map<string, string>, after: map<string, string>)
    requires |kept| <= |history| && kept == history[|history| - |kept|..]
    requires HistoryKept(history, before)
    requires forall n :: n in before && n in Names(kept) ==> n in after
    ensures HistoryKept(kept, after)
  {
    NamesExact(kept);
    forall i | 0 <= i < |kept| && kept[i].verdict != Failed ensures kept[i].configMap in after
    && kept[i].configMap != "" {
      assert kept[i] == history[|history| - |kept| + i];
    }
  }

  lemma TrimKeeps(w: World, limit: nat, undeleted: set<string>, name: string)
    requires limit > 0 && Restorable(w, name) && HistoryKept(w.history, w.store)
    ensures var r := Trim(w, limit, undeleted);
            Restorable(r, name) && HistoryKept(r.history, r.store) && r == w.(history := r.history, store := r.store)
  {
    TrimSpares(w, limit, undeleted);
    var r := Trim(w, limit, undeleted);
    SuffixKept(w.history, r.history, w.store, r.store);
  }

  lemma AppendKeeps(history: seq<Entry>, entry: Entry, store: map<string, string>)
    requires HistoryKept(history, store)
    requires entry.verdict != Failed ==> entry.configMap in store && entry.configMap != ""
    ensures HistoryKept(AppendEntry(history, entry), store)
  {
  }

  lemma NameIsNotEmpty(name: string, digest: string)
    ensures ConfigMapName(name, digest) != ""
  {
  }

  lemma RecordKeeps(w: World, spec: Spec, snapshot: string, version: string, digest: string, verdict: Verdict,
      storeOk: bool, name: string)
    requires HistoryKept(w.history, w.store) && spec.name == name && NonBlank(snapshot)
    ensures var r := RecordSuccess(w, spec, snapshot, version, digest, verdict, storeOk);
            r.Some? ==>
              && Restorable(r.value, name) && HistoryKept(r.value.history, r.value.store)
              && r.value.lastSuccessful.Some?
                        && r.value
                        == w.(store := r.value.store, history := r.value.history,
                            lastSuccessful := r.value.lastSuccessful, successBytes := snapshot)
  {
    NameIsNotEmpty(name, digest);
    var r := RecordSuccess(w, spec, snapshot, version, digest, verdict, storeOk);
    if r.Some? {
      AppendKeeps(w.history, r.value.lastSuccessful.value, r.value.store);
    }
  }

  lemma InSyncKeeps(w: World, spec: Spec, group: string, version: string, digest: string, snapshot: string, a: Answers,
      name: string, maxRetries: nat)
    requires Restorable(w, name) && HistoryKept(w.history, w.store) && !w.missing
    requires spec.name == name && NonBlank(snapshot)
    ensures var r := MarkInSync(w, spec, group, version, digest, snapshot, a);
            r.Some? ==> && Inv(r.value, name, maxRetries) && r.value.request.None? && r.value.active.None?
                        && r.value.lastSuccessful.Some? && r.value.lastSuccessful.value.digest == digest
                        && r.value.successBytes
                        == (if w.lastSuccessful.Some?
                        && w.lastSuccessful.value.digest == digest then w.successBytes else snapshot)
                        && r.value.mutations == w.mutations
  {
    var recorded := RecordSuccess(w, spec, snapshot, version, digest, Succeeded, a.storeOk);
    RecordKeeps(w, spec, snapshot, version, digest, Succeeded, a.storeOk, name);
    if w.lastSuccessful.Some? && w.lastSuccessful.value.digest == digest {
      TrimKeeps(w, Limit(spec), a.undeleted, name);
    } else if recorded.Some? {
      TrimKeeps(recorded.value, Limit(spec), a.undeleted, name);
    }
  }

  /** A completed rollback: LastSuccessful stays what it was, and the failed target is on record. */
  lemma RolledBackKeeps(w: World, spec: Spec, a: Answers, name: string, maxRetries: nat)
    requires Restorable(w, name) && HistoryKept(w.history, w.store) && !w.missing
    requires spec.name == name && w.lastSuccessful.Some? && w.lastRollback.Some?
    ensures RollbackSnapshot(w) == Some(w.successBytes)
    ensures var r := MarkRolledBack(w, spec, w.lastSuccessful.value, w.successBytes, a);
            && r.Some? && Inv(r.value, name, maxRetries)
            && r.value.request.None? && r.value.active.None? && r.value.processGroup == w.processGroup
            && r.value.mutations == w.mutations
            && r.value.lastRollback == Some(w.lastRollback.value.(completed := true))
            && r.value.lastSuccessful.Some? && r.value.lastSuccessful.value.digest == w.lastSuccessful.value.digest
            && r.value.successBytes == w.successBytes && r.value.artifactDigest == w.lastSuccessful.value.digest
  {
    var e := w.lastSuccessful.value;
    var recorded := RecordSuccess(w, spec, w.successBytes, e.version, e.digest, RolledBack, a.storeOk);
    RecordKeeps(w, spec, w.successBytes, e.version, e.digest, RolledBack, a.storeOk, name);
    TrimKeeps(recorded.value, Limit(spec), a.undeleted, name);
  }

  // --- failures --------------------------------------------------------------------------------

  ghost predicate Settled(w: World, name: string, maxRetries: nat) {
    Restorable(w, name) && HistoryKept(w.history, w.store) && Bounded(w, maxRetries) && !w.missing
    && w.processGroup != ""
  }

  lemma BookedKeeps(w: World, spec: Spec, f: Request, a: Answers, name: string)
    requires Restorable(w, name) && HistoryKept(w.history, w.store)
    ensures var t := Booked(w, spec, f, a);
            Restorable(t, name) && HistoryKept(t.history, t.store) && t == w.(history := t.history, store := t.store)
  {
    var e := Entry(f.version, f.digest, f.configMap, Failed, f.failure);
    AppendKeeps(w.history, e, w.store);
    TrimKeeps(w.(history := AppendEntry(w.history, e)), Limit(spec), a.undeleted, name);
  }

  lemma SendKeeps(t: World, spec: Spec, f: Request, reply: Reply, name: string, maxRetries: nat)
    requires Settled(t, name, maxRetries) && RollbackSnapshot(t).Some?
    ensures var s := SendRollback(t, spec, f, reply);
            && Settled(s, name, maxRetries) && Inv(s, name, maxRetries) && !AwaitsReadiness(s)
            && s.processGroup == t.processGroup && s.lastSuccessful == t.lastSuccessful
            && s.successBytes == t.successBytes && s.settlements == t.settlements
            && s.requestBytes == t.successBytes && s.mutations == t.mutations + 1
            && s.lastRollback == Some(Rollback(spec.generation, f.version, f.digest, false))
  {
  }

  /** What handling a failed request comes to: the invariant, no request in flight but a rollback,
      no rollback completed, and at most one request sent, none when a rollback failed. */
  ghost predicate Handled(w: World, r: World, failed: Request, name: string, maxRetries: nat) {
    && Inv(r, name, maxRetries) && !AwaitsReadiness(r) && r.processGroup == w.processGroup
    && w.mutations <= r.mutations <= w.mutations + (if failed.operation == Restore then 0 else 1)
    && (Outstanding(r) && r.request.value.failure == "" ==> r.request.value.operation == Restore)
    && (r.lastRollback == w.lastRollback || (r.lastRollback.Some? && !r.lastRollback.value.completed))
    && r.lastSuccessful == w.lastSuccessful && r.successBytes == w.successBytes && r.settlements == w.settlements
  }

  lemma EndKeeps(t: World, f: Request, over: bool, name: string, maxRetries: nat)
    requires Settled(t, name, maxRetries) && !AwaitsReadiness(t) && f.failure != ""
    ensures var r := t.(request := Some(f), active := if over then None else t.active);
            Handled(t, r, f, name, maxRetries)
  {
  }

  lemma RetryKeeps(t: World, spec: Spec, f: Request, name: string, maxRetries: nat)
    requires Settled(t, name, maxRetries) && RetryAllowed(t, spec) && spec.maxRetries <= maxRetries
    ensures Inv(Retry(t), name, maxRetries) && Handled(t, Retry(t), f, name, maxRetries)
  {
  }

  lemma NestedKeeps(t: World, sent: World, r: World, f: Request, name: string, maxRetries: nat)
    requires sent.request.Some? && sent.request.value.operation == Restore
             && Handled(sent, r, sent.request.value, name, maxRetries)
    requires sent.processGroup == t.processGroup && sent.mutations == t.mutations + 1 && f.operation != Restore
    requires sent.lastRollback.Some? && !sent.lastRollback.value.completed && sent.lastSuccessful == t.lastSuccessful
    requires sent.successBytes == t.successBytes && sent.settlements == t.settlements
    ensures Handled(t, r, f, name, maxRetries)
  {
  }

  lemma BookedHandled(w: World, t: World, r: World, f: Request, failed: Request, name: string, maxRetries: nat)
    requires Handled(t, r, f, name, maxRetries) && t == w.(history := t.history, store := t.store)
             && f.operation == failed.operation
    ensures Handled(w, r, failed, name, maxRetries)
  {
  }

  /** A failed rollback ends the handling: nothing is sent. */
  lemma RestoreFailureKeeps(w: World, spec: Spec, failed: Request, a: Answers, name: string, maxRetries: nat)
    requires Settled(w, name, maxRetries) && !AwaitsReadiness(w) && failed.failure != "" && failed.operation == Restore
    ensures Handled(w, HandleFailure(w, spec, failed, a), failed, name, maxRetries)
  {
    var f := Cleaned(failed, a.cleanupOk);
    var t := Booked(w, spec, f, a);
    BookedKeeps(w, spec, f, a, name);
    EndKeeps(t, f, true, name, maxRetries);
    BookedHandled(w, t, HandleFailure(w, spec, failed, a), f, failed, name, maxRetries);
  }

  lemma RollbackSentKeeps(t: World, spec: Spec, f: Request, a: Answers, name: string, maxRetries: nat)
    requires Settled(t, name, maxRetries) && RollbackSnapshot(t).Some? && f.operation != Restore
    ensures var sent := SendRollback(t, spec, f, a.rollbackReply);
            var r := if a.rollbackReply.failure == "" then sent
                     else HandleFailure(sent, spec, sent.request.value,
                         a.(cleanupOk := a.cleanupAgainOk, undeleted := a.undeletedAgain));
            Handled(t, r, f, name, maxRetries)
  {
    SendKeeps(t, spec, f, a.rollbackReply, name, maxRetries);
    var sent := SendRollback(t, spec, f, a.rollbackReply);
    if a.rollbackReply.failure != "" {
      var again := a.(cleanupOk := a.cleanupAgainOk, undeleted := a.undeletedAgain);
      RestoreFailureKeeps(sent, spec, sent.request.value, again, name, maxRetries);
      NestedKeeps(t, sent, HandleFailure(sent, spec, sent.request.value, again), f, name, maxRetries);
    }
  }

  /** Failure handling keeps the invariant and, because it sends at most one request, nests at most
      once. */
  lemma FailureKeeps(w: World, spec: Spec, failed: Request, a: Answers, name: string, maxRetries: nat)
    requires Settled(w, name, maxRetries) && !AwaitsReadiness(w) && spec.maxRetries <= maxRetries
             && failed.failure != ""
    ensures Handled(w, HandleFailure(w, spec, failed, a), failed, name, maxRetries)
  {
    var f := Cleaned(failed, a.cleanupOk);
    var t := Booked(w, spec, f, a);
    var r := HandleFailure(w, spec, failed, a);
    BookedKeeps(w, spec, f, a, name);
    if f.operation == Restore {
      RestoreFailureKeeps(w, spec, failed, a, name, maxRetries);
      return;
    } else if RetryAllowed(t, spec) {
      assert r == Retry(t);
      RetryKeeps(t, spec, f, name, maxRetries);
    } else if !spec.rollbackEnabled || RollbackSnapshot(t).None? {
      assert r == t.(request := Some(f), active := None);
      EndKeeps(t, f, true, name, maxRetries);
    } else if !a.rollbackGroupOk || !a.rollbackCreateOk || a.rollbackReply.id == "" {
      assert r == t.(request := Some(f));
      EndKeeps(t, f, false, name, maxRetries);
    } else {
      RollbackSentKeeps(t, spec, f, a, name, maxRetries);
    }
    BookedHandled(w, t, r, f, failed, name, maxRetries);
  }

  /** The failure is the newest entry of the history, which keeps at most the configured number of
      entries, or five. */
  lemma FailureOnRecord(w: World, spec: Spec, f: Request, a: Answers)
    ensures var h := Booked(w, spec, f, a).history;
            && 0 < |h| <= (if spec.historyLimit > 0 then spec.historyLimit else 5)
            && h[|h| - 1].version == f.version && h[|h| - 1].digest == f.digest
            && h[|h| - 1].verdict == Failed && h[|h| - 1].reason == f.failure
            && (h[|h| - 1].configMap == f.configMap || (w.history != [] && h[|h| - 1] == w.history[|w.history| - 1]))
  {
    TrimSpares(RecordFailure(w, f.version, f.digest, f.configMap, f.failure), Limit(spec), a.undeleted);
  }

  /** The same failure booked again adds no entry. */
  lemma FailureBookedOnce(w: World, spec: Spec, f: Request, a: Answers, again: Answers)
    ensures var once := Booked(w, spec, f, a);
            Booked(once, spec, f, again) == once
  {
    FailureOnRecord(w, spec, f, a);
  }

  /** A failed request leads to a rollback request exactly if it was no rollback itself, no retry is
      left, rollback is enabled, something succeeded before and NiFi accepts; what is then sent is
      exactly the bytes recorded at the last success. */
  lemma RollbackSendsLastSuccess(w: World, spec: Spec, failed: Request, a: Answers, name: string, maxRetries: nat)
    requires Settled(w, name, maxRetries) && !AwaitsReadiness(w) && spec.maxRetries <= maxRetries
             && failed.failure != ""
    ensures var r := HandleFailure(w, spec, failed, a);
            && (r.mutations > w.mutations
                <==> && failed.operation != Restore
                     && !(w.active.Some? && w.active.value.operation == InPlace
                          && w.active.value.retries < spec.maxRetries)
                     && spec.rollbackEnabled && w.lastSuccessful.Some?
                     && a.rollbackGroupOk && a.rollbackCreateOk && a.rollbackReply.id != "")
            && (r.mutations > w.mutations ==>
              r.requestBytes == w.successBytes && r.request.Some?
              && r.request.value.digest == w.lastSuccessful.value.digest)
  {
    var f := Cleaned(failed, a.cleanupOk);
    var t := Booked(w, spec, f, a);
    var r := HandleFailure(w, spec, failed, a);
    BookedKeeps(w, spec, f, a, name);
    assert RollbackSnapshot(t).None? <==> w.lastSuccessful.None?;
    if f.operation != Restore && !RetryAllowed(t, spec) && spec.rollbackEnabled && RollbackSnapshot(t).Some?
       && a.rollbackGroupOk && a.rollbackCreateOk && a.rollbackReply.id != "" {
      RollbackSentBytes(t, spec, f, a, name, maxRetries);
    } else {
      assert r.mutations == t.mutations;
    }
  }

  lemma RollbackSentBytes(t: World, spec: Spec, f: Request, a: Answers, name: string, maxRetries: nat)
    requires Settled(t, name, maxRetries) && RollbackSnapshot(t).Some? && f.operation != Restore
    ensures var sent := SendRollback(t, spec, f, a.rollbackReply);
            var r := if a.rollbackReply.failure == "" then sent
                     else HandleFailure(sent, spec, sent.request.value,
                         a.(cleanupOk := a.cleanupAgainOk, undeleted := a.undeletedAgain));
            && r.mutations == t.mutations + 1 && r.requestBytes == t.successBytes
            && r.request.Some? && r.request.value.digest == t.lastSuccessful.value.digest
  {
    SendKeeps(t, spec, f, a.rollbackReply, name, maxRetries);
    var sent := SendRollback(t, spec, f, a.rollbackReply);
    if a.rollbackReply.failure != "" {
      var again := a.(cleanupOk := a.cleanupAgainOk, undeleted := a.undeletedAgain);
      var g := Cleaned(sent.request.value, again.cleanupOk);
      BookedKeeps(sent, spec, g, again, name);
      assert HandleFailure(sent, spec, sent.request.value, again)
             == Booked(sent, spec, g, again).(request := Some(g), active := None);
    }
  }

  /** A failed rollout finds its rollback snapshot if and only if some rollout ever succeeded. */
  lemma RollbackUnavailableIffNoSuccess(w: World, spec: Spec, f: Request, a: Answers, name: string, maxRetries: nat)
    requires Inv(w, name, maxRetries)
    ensures RollbackSnapshot(Booked(w, spec, f, a)).None? <==> w.lastSuccessful.None?
    ensures w.lastSuccessful.Some? ==> RollbackSnapshot(Booked(w, spec, f, a)) == Some(w.successBytes)
  {
    BookedKeeps(w, spec, f, a, name);
  }

  // --- one reconcile ---------------------------------------------------------------------------

  lemma PollKeeps(w: World, spec: Spec, a: Answers, name: string, maxRetries: nat)
    requires Inv(w, name, maxRetries) && Admissible(spec, name, maxRetries)
    requires Outstanding(w) && w.request.value.failure == "" && !AwaitsReadiness(w)
    ensures Inv(PollRequest(w, spec, a), name, maxRetries)
  {
    var request := Refreshed(w.request.value, a.reply);
    if a.pollOk && request.failure != "" {
      FailureKeeps(w.(request := Some(request)), spec, Cleaned(request, a.deleteOk), a, name, maxRetries);
    }
  }

  lemma CompleteKeeps(w: World, spec: Spec, a: Answers, name: string, maxRetries: nat)
    requires Inv(w, name, maxRetries) && Admissible(spec, name, maxRetries)
    requires Outstanding(w) && w.request.value.failure == "" && !AwaitsReadiness(w)
    ensures Inv(CompleteReplace(w, spec, a), name, maxRetries)
  {
    var status := w.request.value.(complete := true, id := "");
    var w1 := w.(request := Some(status));
    assert ReadSnapshot(w.store, status.configMap) == Some(w.requestBytes);
    if status.operation == Restore {
      RolledBackKeeps(w1, spec, a, name, maxRetries);
    } else {
      InSyncKeeps(w1, spec, w1.processGroup, status.version, status.digest, w.requestBytes, a, name, maxRetries);
    }
  }

  lemma PersistKeeps(w: World, spec: Spec, storeOk: bool, name: string)
    requires Restorable(w, name) && HistoryKept(w.history, w.store) && NonBlank(spec.snapshot)
    ensures var cm := ConfigMapName(spec.name, spec.digest);
            var store := PersistSnapshot(w.store, cm, spec.snapshot, storeOk);
            store.Some? ==>
              Restorable(w.(store := store.value), name) && HistoryKept(w.history, store.value)
              && Holds(store.value, cm, spec.snapshot)
  {
    NameIsNotEmpty(spec.name, spec.digest);
  }

  lemma SendReplaceKeeps(w: World, spec: Spec, a: Answers, name: string, maxRetries: nat)
    requires Settled(w, name, maxRetries) && Admissible(spec, name, maxRetries)
    requires w.active.Some? && !Outstanding(w) && !AwaitsReadiness(w)
    ensures Inv(SendReplace(w, spec, a), name, maxRetries)
  {
    var cm := ConfigMapName(spec.name, spec.digest);
    var store := PersistSnapshot(w.store, cm, spec.snapshot, a.storeOk);
    PersistKeeps(w, spec, a.storeOk, name);
    if store.Some? {
      SentKeeps(w, store.value, cm, spec, a.reply, name, maxRetries);
      var w1 := w.(store := store.value, active := Some(w.active.value.(phase := Replacing)));
      var w2 := Requested(w1, spec, cm, a.reply);
      var r := SendReplace(w, spec, a);
      if !a.createOk || a.reply.id == "" {
        assert r == w1;
      } else if a.reply.failure == "" {
        assert r == w2;
      } else {
        var f := Cleaned(w2.request.value, a.deleteOk);
        FailureKeeps(w2, spec, f, a, name, maxRetries);
        assert r == HandleFailure(w2, spec, f, a);
      }
    }
  }

  lemma SentKeeps(w: World, store: map<string, string>, cm: string, spec: Spec, reply: Reply, name: string,
      maxRetries: nat)
    requires Settled(w, name, maxRetries) && w.active.Some? && !Outstanding(w) && !AwaitsReadiness(w)
    requires Restorable(w.(store := store), name) && HistoryKept(w.history, store) && Holds(store, cm, spec.snapshot)
    ensures var w1 := w.(store := store, active := Some(w.active.value.(phase := Replacing)));
            var w2 := Requested(w1, spec, cm, reply);
            Inv(w1, name, maxRetries) && Inv(w2, name, maxRetries) && Settled(w2, name, maxRetries)
            && !AwaitsReadiness(w2)
  {
  }

  lemma EnsureKeeps(w: World, spec: Spec, operation: Operation, name: string, maxRetries: nat)
    requires Inv(w, name, maxRetries) && !Outstanding(w) && !AwaitsReadiness(w)
    ensures var r := EnsureActive(w, spec, spec.version, spec.digest, operation);
            Inv(r, name, maxRetries) && !Outstanding(r) && !AwaitsReadiness(r) && r == w.(active := r.active)
  {
  }

  lemma StartKeeps(w: World, spec: Spec, a: Answers, name: string, maxRetries: nat)
    requires Inv(w, name, maxRetries) && Admissible(spec, name, maxRetries)
    requires !Outstanding(w) && !AwaitsReadiness(w) && w.processGroup != ""
    ensures Inv(StartReplace(w, spec, a), name, maxRetries)
  {
    EnsureKeeps(w, spec, InPlace, name, maxRetries);
    var w1 := EnsureActive(w, spec, spec.version, spec.digest, InPlace);
    var prepared := w1.(active := Some(w1.active.value.(phase := Prepared)));
    assert Settled(prepared, name, maxRetries);
    SendReplaceKeeps(w1, spec, a, name, maxRetries);
    SendReplaceKeeps(prepared, spec, a, name, maxRetries);
  }

  lemma SwitchBackKeeps(w: World, spec: Spec, reason: string, a: Answers, name: string, maxRetries: nat)
    requires Inv(w, name, maxRetries) && !Outstanding(w) && w.active.Some?
    ensures Inv(SwitchBack(w, spec, reason, a), name, maxRetries)
  {
    var target := w.active.value;
    var e := Entry(target.version, target.digest, "", Failed, reason);
    var w1 :=
        w.(active := None, lastRollback := Some(Rollback(spec.generation, target.version, target.digest, true)),
            history := AppendEntry(w.history, e));
    AppendKeeps(w.history, e, w.store);
    TrimKeeps(w1, Limit(spec), a.undeleted, name);
    assert SwitchBack(w, spec, reason, a) == Trim(w1, Limit(spec), a.undeleted);
  }

  lemma PromoteKeeps(before: World, w: World, spec: Spec, candidate: GroupId, blue: string, a: Answers, name: string,
      maxRetries: nat)
    requires Inv(before, name, maxRetries) && Inv(w, name, maxRetries) && Admissible(spec, name, maxRetries)
    ensures Inv(Promote(before, w, spec, candidate, blue, a), name, maxRetries)
  {
    InSyncKeeps(Retiring(w, blue), spec, candidate, spec.version, spec.digest, spec.snapshot, a, name, maxRetries);
  }

  lemma MoveKeeps(before: World, w: World, spec: Spec, a: Answers, name: string, maxRetries: nat)
    requires Inv(before, name, maxRetries) && Inv(w, name, maxRetries) && Admissible(spec, name, maxRetries)
    requires !Outstanding(w) && !AwaitsReadiness(w) && w.active.Some?
    ensures Inv(BlueGreenMove(before, w, spec, a), name, maxRetries)
  {
    var r := BlueGreenMove(before, w, spec, a);
    match a.blueGreen
    case Busy(starts) =>
      assert r == w.(mutations := r.mutations);
    case Adopted(candidate) =>
      assert r == w.(processGroup := candidate, mutations := r.mutations);
    case Promoted(candidate, blue) =>
      assert r == Promote(before, w, spec, candidate, blue, a);
      PromoteKeeps(before, w, spec, candidate, blue, a, name, maxRetries);
    case SwitchedBack(reason) =>
      assert r == SwitchBack(w, spec, reason, a);
      SwitchBackKeeps(w, spec, reason, a, name, maxRetries);
    case Aborted =>
      assert r == w.(active := None);
  }

  lemma BlueGreenKeeps(w: World, spec: Spec, a: Answers, name: string, maxRetries: nat)
    requires Inv(w, name, maxRetries) && Admissible(spec, name, maxRetries)
    requires !Outstanding(w) && !AwaitsReadiness(w)
    ensures Inv(BlueGreenStep(w, spec, a), name, maxRetries)
  {
    EnsureKeeps(w, spec, BlueGreen, name, maxRetries);
    MoveKeeps(w, EnsureActive(w, spec, spec.version, spec.digest, BlueGreen), spec, a, name, maxRetries);
  }

  lemma GateKeeps(w: World, spec: Spec, a: Answers, name: string, maxRetries: nat)
    requires Inv(w, name, maxRetries) && Admissible(spec, name, maxRetries) && AwaitsReadiness(w)
    ensures Inv(AwaitGate(w, spec, a), name, maxRetries)
  {
    var r := AwaitGate(w, spec, a);
    if a.gate == GateReady && a.finishOk {
      var done := MarkInSync(w, spec, w.processGroup, spec.version, spec.digest, spec.snapshot, a);
      InSyncKeeps(w, spec, w.processGroup, spec.version, spec.digest, spec.snapshot, a, name, maxRetries);
      assert r == if done.Some? then done.value else w;
    } else if a.gate == GateTimedOut && RetryAllowed(w, spec) {
      RetryKeeps(w, spec, Request("", false, "", "", "", InPlace, ""), name, maxRetries);
    } else {
      assert r == w.(active := r.active) && (r.active.Some? ==> r == w);
    }
  }

  lemma SteadyKeeps(w: World, spec: Spec, statusChanged: bool, a: Answers, name: string, maxRetries: nat)
    requires Inv(w, name, maxRetries) && Admissible(spec, name, maxRetries)
    ensures Inv(Steady(w, spec, statusChanged, a), name, maxRetries)
  {
    var r := Steady(w, spec, statusChanged, a);
    var done := MarkInSync(w, spec, w.processGroup, spec.version, spec.digest, spec.snapshot, a);
    InSyncKeeps(w, spec, w.processGroup, spec.version, spec.digest, spec.snapshot, a, name, maxRetries);
    assert r == w || (done.Some? && r == done.value);
  }

  lemma ResumeKeeps(w: World, spec: Spec, a: Answers, name: string, maxRetries: nat)
    requires Inv(w, name, maxRetries) && Admissible(spec, name, maxRetries) && Outstanding(w) && !AwaitsReadiness(w)
    ensures Inv(Resume(w, spec, a), name, maxRetries)
  {
    var r := Resume(w, spec, a);
    if w.request.value.failure != "" {
      assert r == HandleFailure(w, spec, w.request.value, a);
      FailureKeeps(w, spec, w.request.value, a, name, maxRetries);
    } else if w.request.value.complete {
      assert r == CompleteReplace(w, spec, a);
      CompleteKeeps(w, spec, a, name, maxRetries);
    } else {
      assert r == PollRequest(w, spec, a);
      PollKeeps(w, spec, a, name, maxRetries);
    }
  }

  lemma ImportKeeps(w: World, spec: Spec, a: Answers, name: string, maxRetries: nat)
    requires Inv(w, name, maxRetries) && !Outstanding(w) && !AwaitsReadiness(w)
    ensures Inv(ImportFirst(w, spec, a), name, maxRetries)
  {
    EnsureKeeps(w, spec, InPlace, name, maxRetries);
  }

  lemma CompareKeeps(w: World, spec: Spec, a: Answers, name: string, maxRetries: nat)
    requires Inv(w, name, maxRetries) && Admissible(spec, name, maxRetries) && !Outstanding(w) && !AwaitsReadiness(w)
    ensures Inv(Compare(w, spec, a), name, maxRetries)
  {
    var r := Compare(w, spec, a);
    if w.processGroup == "" {
      assert r == ImportFirst(w, spec, a);
      ImportKeeps(w, spec, a, name, maxRetries);
    } else if !a.groupOk || Blocked(w, spec) {
      assert r == w;
    } else if w.artifactDigest == spec.digest && w.deployedVersion == spec.version && a.drift != ForceReplace {
      if a.drift.Matches? {
        assert r == Steady(w, spec, a.drift.statusChanged, a);
        SteadyKeeps(w, spec, a.drift.statusChanged, a, name, maxRetries);
      }
    } else if spec.blueGreen {
      assert r == BlueGreenStep(w, spec, a);
      BlueGreenKeeps(w, spec, a, name, maxRetries);
    } else {
      assert r == StartReplace(w, spec, a);
      StartKeeps(w, spec, a, name, maxRetries);
    }
  }

  /** Every reconcile keeps the invariant. */
  lemma ReconcileKeeps(w: World, spec: Spec, a: Answers, name: string, maxRetries: nat)
    requires Inv(w, name, maxRetries) && Admissible(spec, name, maxRetries)
    ensures Inv(Reconcile(w, spec, a), name, maxRetries)
  {
    var r := Reconcile(w, spec, a);
    if w.retiring != "" {
      assert r == w.(retiring := "");
    } else if spec.cancel && w.active.Some? {
      assert r == w || r == w.(request := None, active := None);
    } else if AwaitsReadiness(w) {
      assert r == AwaitGate(w, spec, a);
      GateKeeps(w, spec, a, name, maxRetries);
    } else if Outstanding(w) {
      assert r == Resume(w, spec, a);
      ResumeKeeps(w, spec, a, name, maxRetries);
    } else {
      assert r == Compare(w, spec, a);
      CompareKeeps(w, spec, a, name, maxRetries);
    }
  }

  // --- whole runs ------------------------------------------------------------------------------

  /** Between reconciles others may add ConfigMaps; they delete or change none. */
  ghost predicate EnvStep(w: World, v: World) {
    v == w.(store := v.store) && forall n :: n in w.store ==> n in v.store && v.store[n] == w.store[n]
  }

  ghost predicate Step(w: World, v: World, name: string, maxRetries: nat) {
    EnvStep(w, v) || exists spec, a :: Admissible(spec, name, maxRetries) && v == Reconcile(w, spec, a)
  }

  ghost predicate IsRun(run: seq<World>, name: string, maxRetries: nat) {
    |run| > 0 && forall i :: 0 <= i < |run| - 1 ==> Step(run[i], run[i + 1], name, maxRetries)
  }

  /** A deployment nothing was done for yet, beside whatever ConfigMaps exist. */
  predicate Initial(w: World) {
    w.request.None? && w.active.None? && w.lastRollback.None? && w.lastSuccessful.None? && w.history == []
    && w.processGroup == "" && !w.missing
  }

  lemma {:induction false} RunKeeps(run: seq<World>, i: nat, name: string, maxRetries: nat)
    requires IsRun(run, name, maxRetries) && i < |run| && Inv(run[0], name, maxRetries)
    ensures Inv(run[i], name, maxRetries)
  {
    if i > 0 {
      RunKeeps(run, i - 1, name, maxRetries);
      var w, v := run[i - 1], run[i];
      assert Step(w, run[i - 1 + 1], name, maxRetries);
      if !EnvStep(w, v) {
        var spec, a :| Admissible(spec, name, maxRetries) && v == Reconcile(w, spec, a);
        ReconcileKeeps(w, spec, a, name, maxRetries);
      }
    }
  }

  /** In every state of every run from a fresh deployment, LastSuccessful can be read back with the
      bytes recorded at success, so can the checkpoint of a request in flight, no completed request
      ever missed its snapshot, and the retry counter stays in budget. Digests may collide. */
  lemma RollbackTargetAvailable(run: seq<World>, i: nat, name: string, maxRetries: nat)
    requires IsRun(run, name, maxRetries) && i < |run| && Initial(run[0])
    ensures !run[i].missing
    ensures run[i].lastSuccessful.Some? ==> RollbackSnapshot(run[i]) == Some(run[i].successBytes)
    ensures Outstanding(run[i]) && run[i].request.value.failure == ""
            ==> ReadSnapshot(run[i].store, run[i].request.value.configMap) == Some(run[i].requestBytes)
    ensures HistoryKept(run[i].history, run[i].store)
    ensures run[i].active.Some? ==> run[i].active.value.retries <= maxRetries
  {
    assert Inv(run[0], name, maxRetries);
    RunKeeps(run, i, name, maxRetries);
  }
}
