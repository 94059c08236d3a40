/**
 * A table that remembers when each key was last accepted, and the filter it stands for.
 *
 * Both the switch-event decoder and the switch-event publisher suppress a key that was
 * accepted less than one window ago, and both drop old entries to bound their memory. The
 * reference is the filter that forgets nothing (`Kept`); `Agrees` says when a pruned table
 * still answers every later question exactly as the full history would.
 */
module RecencyTable {

  datatype Entry<K> = Entry(key: K, at: real)

  /** No entry for `key` was accepted less than `window` before `now`. */
  ghost predicate Fresh<K>(history: seq<Entry<K>>, key: K, now: real, window: real) {
    forall i :: 0 <= i < |history| && history[i].key == key ==> now - history[i].at >= window
  }

  /** The arrivals an observer with unbounded memory accepts. */
  ghost function Kept<K>(arrivals: seq<Entry<K>>, window: real): (kept: seq<Entry<K>>) {
    if arrivals == [] then []
    else
      var before := Kept(arrivals[..|arrivals| - 1], window);
      var last := arrivals[|arrivals| - 1];
      if Fresh(before, last.key, last.at, window) then before + [last] else before
  }

  ghost predicate Ordered<K>(entries: seq<Entry<K>>) {
    forall i, j :: 0 <= i <= j < |entries| ==> entries[i].at <= entries[j].at
  }

  /** Two accepted entries of one key are at least one window apart. */
  ghost predicate Spaced<K>(entries: seq<Entry<K>>, window: real) {
    forall i, j :: 0 <= i < j < |entries| && entries[i].key == entries[j].key
      ==> entries[j].at - entries[i].at >= window
  }

  /**
   * At `asOf`, the table holds the newest acceptance of every key that could still suppress
   * anything, and holds nothing that never happened.
   */
  ghost predicate Agrees<K>(table: map<K, real>, history: seq<Entry<K>>, asOf: real, window: real) {
    && (forall k :: k in table ==> Entry(k, table[k]) in history)
    && (forall i :: 0 <= i < |history| ==>
          && history[i].at <= asOf
          && (asOf - history[i].at < window ==>
                history[i].key in table && history[i].at <= table[history[i].key]))
  }

  function Unexpired<K(==)>(table: map<K, real>, now: real, window: real): map<K, real> {
    map k | k in table && now - table[k] < window :: table[k]
  }

  /** What a pruned table answers is what the full history answers. */
  lemma LookupMatchesHistory<K>(table: map<K, real>, history: seq<Entry<K>>, asOf: real, window: real, key: K,
      now: real)
    requires Agrees(table, history, asOf, window)
    requires asOf <= now
    ensures (key in table && now - table[key] < window) <==> !Fresh(history, key, now, window)
  {
    if key in table && now - table[key] < window {
      var i :| 0 <= i < |history| && history[i] == Entry(key, table[key]);
    }
  }

  /** Dropping entries that are a full window old leaves the agreement intact. */
  lemma PurgeKeepsAgreement<K>(table: map<K, real>, history: seq<Entry<K>>, asOf: real, window: real, now: real)
    requires Agrees(table, history, asOf, window)
    requires asOf <= now
    ensures Agrees(Unexpired(table, now, window), history, now, window)
  {
    var pruned := Unexpired(table, now, window);
    forall i | 0 <= i < |history|
      ensures history[i].at <= now
      ensures now - history[i].at < window ==>
                history[i].key in pruned && history[i].at <= pruned[history[i].key]
    {
      assert history[i].at <= asOf;
    }
  }

  lemma RecordKeepsAgreement<K>(table: map<K, real>, history: seq<Entry<K>>, asOf: real, window: real, key: K,
      now: real)
    requires Agrees(table, history, asOf, window)
    requires asOf <= now
    ensures Agrees(table[key := now], history + [Entry(key, now)], now, window)
  {
    var table', history' := table[key := now], history + [Entry(key, now)];
    forall k | k in table' ensures Entry(k, table'[k]) in history' {
      if k == key {
        assert history'[|history|] == Entry(k, table'[k]);
      } else {
        assert Entry(k, table[k]) in history;
      }
    }
    forall i | 0 <= i < |history'|
      ensures history'[i].at <= now
      ensures now - history'[i].at < window ==>
                history'[i].key in table' && history'[i].at <= table'[history'[i].key]
    {
      if i < |history| {
        assert history'[i] == history[i] && history[i].at <= asOf;
      }
    }
  }

  /** Accepted arrivals are a window apart, whatever arrived. */
  lemma {:induction false} KeptIsSpaced<K>(arrivals: seq<Entry<K>>, window: real)
    ensures Spaced(Kept(arrivals, window), window)
    ensures forall e :: e in Kept(arrivals, window) ==> e in arrivals
  {
    if arrivals != [] {
      KeptIsSpaced(arrivals[..|arrivals| - 1], window);
    }
  }

  /** A stream already a window apart loses nothing. */
  lemma {:induction false} SpacedIsKept<K>(arrivals: seq<Entry<K>>, window: real)
    requires Spaced(arrivals, window)
    ensures Kept(arrivals, window) == arrivals
  {
    if arrivals != [] {
      var n := |arrivals| - 1;
      SpacedIsKept(arrivals[..n], window);
      assert Fresh(arrivals[..n], arrivals[n].key, arrivals[n].at, window);
      assert arrivals[..n] + [arrivals[n]] == arrivals;
    }
  }

  /** An entry is accepted exactly when no entry of its key was accepted within the window. */
  lemma KeptExtends<K>(arrivals: seq<Entry<K>>, next: Entry<K>, window: real)
    ensures Kept(arrivals + [next], window) ==
            if Fresh(Kept(arrivals, window), next.key, next.at, window)
            then Kept(arrivals, window) + [next] else Kept(arrivals, window)
  {
    assert (arrivals + [next])[..|arrivals|] == arrivals;
  }

  /** Of two arrivals of one key, the second is accepted exactly when it comes a window later. */
  lemma KeptOfTwo<K>(first: Entry<K>, second: Entry<K>, window: real)
    requires first.key == second.key
    ensures Kept([first, second], window) == if second.at - first.at >= window then [first, second] else [first]
  {
    assert [first][..0] == [] && [first, second][..1] == [first];
    assert Kept([first], window) == [first];
  }
}
