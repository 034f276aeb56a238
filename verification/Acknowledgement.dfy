/** When processed records are stored as committed and cleared from the changelog. */
module Acknowledgement {
  import opened Common

  datatype AckConfig = AckConfig(batchAck: nat, maxDelta: int, maxDelay: int)

  /**
   * `last`, `updated` and `lastClear` are the reader's own; `durable` is the index kept in the database
   * and `server` the highest index the changelog was cleared up to.
   */
  datatype Commit = Commit(last: nat, updated: nat, lastClear: nat, durable: nat, server: nat)

  /** What the outside world answers during one callback. */
  datatype Answers = Answers(deltaSec: int, firstStore: bool, clear: bool, secondStore: bool)

  /** Clearing up to index 0 would clear everything, and is not done. */
  function Cleared(m: Commit, ok: bool): (r: Commit) {
    if m.last == 0 || !ok then m
    else m.(lastClear := m.last, server := if m.last > m.server then m.last else m.server)
  }

  /** Only the given index is ever stored or cleared. */
  ghost predicate Acknowledges(m: Commit, m': Commit, index: nat) {
    && m'.last == index
    && (m'.durable == m.durable || (m'.durable == index && index > 0))
    && (m'.server == m.server || (m'.server == index && index > 0))
    && m'.server >= m.server
  }

  class Committer {
    const cfg: AckConfig
    var last: nat
    var updated: nat
    var lastClear: nat
    var durable: nat
    var server: nat

    ghost function View(): (m: Commit)
      reads this
    {
      Commit(last, updated, lastClear, durable, server)
    }

    constructor (cfg: AckConfig, durable: nat, server: nat)
      ensures View() == Commit(0, 0, 0, durable, server) && this.cfg == cfg
    {
      this.cfg, this.durable, this.server := cfg, durable, server;
      last, updated, lastClear := 0, 0, 0;
    }

    /**
     * Store the last committed index, unless it is too soon or the database refuses. An index of 0 means that
     * nothing was processed yet, and is not written.
     */
    method StoreLastCommit(force: bool, deltaSec: int, ok: bool) returns (saved: bool)
      modifies this`updated, this`durable
      ensures saved <==> ok && (force || last - old(updated) >= cfg.maxDelta || deltaSec >= cfg.maxDelay)
      ensures updated == if saved then last else old(updated)
      ensures durable == if saved && last != 0 then last else old(durable)
    {
      if !force && last - updated < cfg.maxDelta && deltaSec < cfg.maxDelay {
        return false;
      }
      if !ok {
        return false;
      }
      updated := last;
      if last != 0 {
        durable := last;
      }
      return true;
    }

    /** Clear the changelog up to the last committed index; index 0 would clear everything. */
    method ClearRecords(ok: bool)
      modifies this`lastClear, this`server
      ensures View() == Cleared(old(View()), ok)
      ensures if last == 0 || !ok then lastClear == old(lastClear) && server == old(server)
              else lastClear == last && server >= last && server >= old(server) && (server == last || server == old(server))
    {
      if last == 0 {
        return;
      }
      if ok {
        lastClear := last;
        server := if last > server then last else server;
      }
    }

    /**
     * A record has been applied. Nothing but its index is stored or cleared. Clearing is put off while
     * fewer than a batch of records were processed since the last time and more are to come; otherwise
     * the index is cleared, and stored, as far as the outside world agrees. A database that agrees
     * is never behind by `maxDelta` records, or for `maxDelay` seconds.
     */
    method RecordCallback(index: nat, lastPush: nat, a: Answers)
      modifies this
      ensures Acknowledges(old(View()), View(), index)
      ensures a.firstStore ==> updated == index || (index - updated < cfg.maxDelta && a.deltaSec < cfg.maxDelay)
      ensures updated == index && updated != old(updated) && index > 0 ==> durable == index
      ensures
        if cfg.batchAck > 1 && index < lastPush && (index - old(lastClear)) % WORD < cfg.batchAck then
          && server == old(server) && lastClear == old(lastClear)
          && durable == (if index > 0 && a.firstStore
                            && (index - old(updated) >= cfg.maxDelta || a.deltaSec >= cfg.maxDelay) then index else old(durable))
        else
          && (a.clear && index > 0 ==> server >= index && lastClear == index)
          && (!a.clear || index == 0 ==> server == old(server) && lastClear == old(lastClear))
          && (a.firstStore && a.secondStore && index > 0 ==> durable == index)
          && (!a.firstStore && !a.secondStore ==> durable == old(durable))
    {
      last := index;
      var saved := StoreLastCommit(false, a.deltaSec, a.firstStore);
      if cfg.batchAck > 1 && index < lastPush && (index - lastClear) % WORD < cfg.batchAck {
        return;
      }
      ClearRecords(a.clear);
      if !saved {
        var _ := StoreLastCommit(true, a.deltaSec, a.secondStore);
      }
    }
  }

  /** Where reading starts again: after the stored index, or from the beginning when none is stored. */
  function StartRecord(durable: nat): (r: nat)
    ensures durable > 0 ==> r == durable + 1
    ensures durable == 0 ==> r == 0
  {
    if durable != 0 then durable + 1 else 0
  }
}
