/**
 The retry-round driver: analyse from scratch, and as long as a round was stopped by an uncovered
 reject, remember its hash and its bundle and start over.
 */
module RetryRounds {
  import opened Words

  /** What one round reports: was it stopped, by which hash, and the bundle it ended with. */
  datatype Round<T> = Round(stop: bool, hash: Option<u64>, bundle: seq<T>)

  const ROUND_CAP: nat := 4096

  /** Hashes banked by the rounds so far. */
  function Banked<T>(log: seq<Round<T>>): set<u64> {
    set i | 0 <= i < |log| && log[i].hash.Some? :: log[i].hash.value
  }

  function Carried<T>(log: seq<Round<T>>): seq<T> {
    if log == [] then [] else log[|log| - 1].bundle
  }

  /** Every logged round was stopped and saw exactly what the rounds before it had left. */
  ghost predicate History<T>(run: (set<u64>, seq<T>) -> Round<T>, log: seq<Round<T>>) {
    forall i :: 0 <= i < |log| ==> log[i].stop && log[i] == run(Banked(log[..i]), Carried(log[..i]))
  }

  ghost predicate DistinctHashes<T>(log: seq<Round<T>>) {
    forall i, j :: 0 <= i < j < |log| && log[i].hash.Some? ==> log[i].hash != log[j].hash
  }

  /** A round only adds to the bundle it was given. */
  ghost predicate Appends<T(!new)>(run: (set<u64>, seq<T>) -> Round<T>) {
    forall covered, carried :: carried <= run(covered, carried).bundle
  }

  /**
   Returns the last round and its number; `log` holds the rounds that were restarted. It gives up
   on a stopped round only at the cap or when the round repeats a hash it already banked.
   */
  method Drive<T>(roundsMode: bool, run: (set<u64>, seq<T>) -> Round<T>)
    returns (last: Round<T>, round: nat, ghost log: seq<Round<T>>)
    ensures 1 <= round <= 4096 && |log| == round - 1
    ensures History(run, log) && last == run(Banked(log), Carried(log))
    ensures DistinctHashes(log)
    ensures !roundsMode ==> round == 1
    ensures roundsMode && last.stop ==> round == 4096 || (last.hash.Some? && last.hash.value in Banked(log))
  {
    round, log := 1, [];
    var covered: set<u64>, carried: seq<T> := {}, [];
    while true
      invariant 1 <= round <= ROUND_CAP && |log| == round - 1
      invariant covered == Banked(log) && carried == Carried(log)
      invariant History(run, log) && DistinctHashes(log)
      invariant !roundsMode ==> round == 1
      decreases ROUND_CAP - round
    {
      last := run(covered, carried);
      if roundsMode && last.stop && round < ROUND_CAP {
        if last.hash.Some? {
          if last.hash.value in covered { return; }
          covered := covered + {last.hash.value};
        }
        carried := last.bundle;
        round := round + 1;
        Logged(run, log, last);
        log := log + [last];
      } else {
        return;
      }
    }
  }

  lemma Logged<T>(run: (set<u64>, seq<T>) -> Round<T>, log: seq<Round<T>>, r: Round<T>)
    requires History(run, log) && DistinctHashes(log)
    requires r.stop && r == run(Banked(log), Carried(log))
    requires r.hash.Some? ==> r.hash.value !in Banked(log)
    ensures History(run, log + [r]) && DistinctHashes(log + [r])
    ensures Banked(log + [r]) == Banked(log) + if r.hash.Some? then {r.hash.value} else {}
  {
    var more := log + [r];
    forall i | 0 <= i < |more| ensures more[i].stop && more[i] == run(Banked(more[..i]), Carried(more[..i])) {
      if i < |log| { assert more[..i] == log[..i]; } else { assert more[..i] == log; }
    }
    forall i | 0 <= i < |log| && log[i].hash.Some? ensures log[i].hash.value in Banked(log) {}
    forall h ensures h in Banked(more) <==> h in Banked(log) || (r.hash.Some? && h == r.hash.value) {
      if h in Banked(log) {
        var i :| 0 <= i < |log| && log[i].hash.Some? && log[i].hash.value == h;
        assert more[i].hash.value == h;
      }
      if r.hash.Some? && h == r.hash.value { assert more[|log|].hash.value == h; }
    }
  }

  /** Every bundle entry of every earlier round is in every later bundle, at the same place. */
  lemma {:induction false} BundleOnlyGrows<T(!new)>(run: (set<u64>, seq<T>) -> Round<T>, log: seq<Round<T>>, i: nat)
    requires Appends(run) && History(run, log) && i < |log|
    ensures log[i].bundle <= run(Banked(log), Carried(log)).bundle
  {
    var n := |log| - 1;
    assert Carried(log) <= run(Banked(log), Carried(log)).bundle;
    if i < n {
      HistoryPrefix(run, log, n);
      BundleOnlyGrows(run, log[..n], i);
      assert log[n] == run(Banked(log[..n]), Carried(log[..n]));
    }
  }

  lemma HistoryPrefix<T>(run: (set<u64>, seq<T>) -> Round<T>, log: seq<Round<T>>, n: nat)
    requires History(run, log) && n <= |log|
    ensures History(run, log[..n])
  {
    forall i | 0 <= i < n ensures log[..n][i].stop && log[..n][i] == run(Banked(log[..n][..i]), Carried(log[..n][..i])) {
      assert log[..n][..i] == log[..i];
    }
  }

  /** If every stopped round names one of finitely many hashes, there are no more restarts than hashes. */
  lemma {:induction false} RestartsBoundedByHashes<T>(log: seq<Round<T>>, hashes: set<u64>)
    requires DistinctHashes(log) && forall i :: 0 <= i < |log| ==> log[i].hash.Some? && log[i].hash.value in hashes
    ensures |log| <= |hashes|
  {
    if log != [] {
      RestartsBoundedByHashes(log[1..], hashes - {log[0].hash.value});
    }
  }
}
