/** The disk budget of the terminal archives: what the writer charges, reserves and prunes. */
module ArchiveQuota {
  import opened Collections

  const FOOTER_RESERVE: nat := 2048

  /** An archive file: its size and when it was last modified. */
  datatype Owned = Owned(bytes: nat, modified: int)

  type Files = map<nat, Owned>

  ghost function Sum(files: Files): nat
    decreases |files|
  {
    if files == map[] then 0
    else
      var id :| id in files;
      files[id].bytes + Sum(files - {id})
  }

  /** The sum does not depend on the order. */
  lemma {:induction false} SumWithout(files: Files, id: nat)
    requires id in files
    ensures Sum(files) == files[id].bytes + Sum(files - {id})
    decreases |files|
  {
    var first :| first in files && Sum(files) == files[first].bytes + Sum(files - {first});
    if first != id {
      SumWithout(files - {first}, id);
      assert files - {first} - {id} == files - {id} - {first};
      SumWithout(files - {id}, first);
    }
  }

  lemma SumUpdated(files: Files, id: nat, f: Owned)
    ensures Sum(files[id := f]) == (if id in files then Sum(files) - files[id].bytes else Sum(files)) + f.bytes
    ensures id in files ==> Sum(files) >= files[id].bytes
  {
    SumWithout(files[id := f], id);
    if id in files {
      SumWithout(files, id);
      assert files[id := f] - {id} == files - {id};
    } else {
      assert files[id := f] - {id} == files;
    }
  }

  /** Each open archive has its file, which is not larger than what was charged for it. */
  ghost predicate Charged(files: Files, archives: map<nat, nat>) {
    forall id :: id in archives ==> id in files && files[id].bytes <= archives[id]
  }

  /** The limits that pruning for `incoming` new archives and `more` bytes restores. */
  predicate WithinLimits(count: nat, total: nat, open: nat, incoming: nat, more: nat, maxArchives: nat, maxTotal: nat) {
    count + incoming <= maxArchives && total + FOOTER_RESERVE * (open + incoming) + more <= maxTotal
  }

  /** What pruning made of the files: no open archive went, nothing expired stayed, and of the
      others the oldest went first. */
  ghost predicate PrunedFrom(before: Files, after: Files, archives: map<nat, nat>, cutoff: int) {
    && after.Keys <= before.Keys && (forall id :: id in after ==> after[id] == before[id])
    && (forall id :: id in archives && id in before ==> id in after)
    && (forall id, gone :: id in after && id !in archives && gone in before && gone !in after ==>
          before[gone].modified <= cutoff || before[gone].modified <= after[id].modified)
  }

  /** A file that pruning deleted although it had not expired. */
  predicate Deleted(before: Files, after: Files, cutoff: int, id: nat) {
    id in before && id !in after && before[id].modified > cutoff
  }

  /** The archive `id` was charged for `bytes`, of which `reached` are in its file. */
  predicate Extended(archives: map<nat, nat>, charged: map<nat, nat>, files: Files, written: Files, id: nat, bytes: nat, reached: nat, now: int) {
    && id in archives && charged == archives[id := archives[id] + bytes]
    && id in files && written == files[id := Owned(files[id].bytes + reached, now)]
  }

  class Writer {
    /** The archive files on disk. */
    var files: Files
    /** The open archives, with the bytes charged for each. */
    var archives: map<nat, nat>
    var total: nat
    /** How many operations on the disk failed so far. */
    ghost var faults: nat
    const maxTotal: nat
    const maxSession: nat
    const maxArchives: nat

    /** The quota: what is charged and one footer for every open archive fit the total limit, and
        each open archive with its footer fits the limit of a session. */
    ghost predicate Valid() reads this {
      && Charged(files, archives) && Sum(files) <= total
      && total + FOOTER_RESERVE * |archives| <= maxTotal
      && (forall id :: id in archives ==> archives[id] + FOOTER_RESERVE <= maxSession)
    }

    /** Files in the order in which pruning looks at them. */
    method Oldest(todo: set<nat>) returns (id: nat)
      requires todo != {} && todo <= files.Keys
      ensures id in todo && forall other :: other in todo ==> files[id].modified <= files[other].modified
    {
      id :| id in todo;
      var left := todo - {id};
      while left != {}
        invariant id in todo && left <= todo
        invariant forall other :: other in todo && other !in left ==> files[id].modified <= files[other].modified
        decreases left
      {
        var k :| k in left;
        if files[k].modified < files[id].modified { id := k; }
        left := left - {k};
      }
    }

    /** The writer of a new process: whatever the files take, pruning comes first. */
    constructor (files: Files, maxTotal: nat, maxSession: nat, maxArchives: nat)
      ensures this.files == files && archives == map[] && total == 0
      ensures this.maxTotal == maxTotal && this.maxSession == maxSession && this.maxArchives == maxArchives
    {
      this.files, archives, total, faults := files, map[], 0, 0;
      this.maxTotal, this.maxSession, this.maxArchives := maxTotal, maxSession, maxArchives;
    }

    method CountBytes() returns (n: nat)
      ensures n == Sum(files)
    {
      n := 0;
      var rest := files;
      while rest != map[]
        invariant n + Sum(rest) == Sum(files)
        decreases |rest|
      {
        var id :| id in rest;
        SumWithout(rest, id);
        n := n + rest[id].bytes;
        OneFewer(rest, id);
        rest := rest - {id};
      }
    }

    /** `prune`: count what is there, then delete the oldest finished archives until the limits
        hold, and every expired one. It stops early only when a file cannot be removed. */
    method Prune(incoming: nat, more: nat, cutoff: int) returns (ok: bool)
      requires Charged(files, archives)
      modifies this`files, this`total, this`faults
      ensures Charged(files, archives) && PrunedFrom(old(files), files, archives, cutoff)
      ensures OnlyNeeded(old(files), files, incoming, more, cutoff)
      ensures faults >= old(faults) && (!ok ==> faults > old(faults))
      ensures (files == old(files) && total == old(total)) || (total == Sum(files) && Sum(files) <= Sum(old(files)))
      ensures ok ==> total == Sum(files)
      ensures ok ==> forall id :: id in files && id !in archives ==>
        files[id].modified > cutoff && |files| + incoming <= maxArchives
        && total + more + FOOTER_RESERVE * (|archives| + incoming) <= maxTotal
    {
      if * {
        faults := faults + 1;
        return false;
      }
      total := CountBytes();
      var todo := files.Keys;
      while todo != {}
        invariant Charged(files, archives) && total == Sum(files) <= Sum(old(files)) && todo <= files.Keys
        invariant PrunedFrom(old(files), files, archives, cutoff) && InOrder(old(files), files, todo)
        invariant Looked(files, archives, todo, total, incoming, more, cutoff)
        invariant OnlyNeeded(old(files), files, incoming, more, cutoff) && faults >= old(faults)
        decreases todo
      {
        hide PrunedFrom, InOrder, Looked, Charged, OnlyNeeded;
        var removed;
        removed, todo := Consider(old(files), todo, incoming, more, cutoff);
        if !removed { return false; }
      }
      ok := true;
    }

    /** The oldest file still to be looked at: it stays, or it goes if that succeeds. */
    method Consider(ghost before: Files, todo: set<nat>, incoming: nat, more: nat, cutoff: int) returns (ok: bool, rest: set<nat>)
      requires todo != {} && todo <= files.Keys && Charged(files, archives) && total == Sum(files)
      requires PrunedFrom(before, files, archives, cutoff) && InOrder(before, files, todo)
      requires Looked(files, archives, todo, total, incoming, more, cutoff) && OnlyNeeded(before, files, incoming, more, cutoff)
      modifies this`files, this`total, this`faults
      ensures rest < todo && total == Sum(files) <= old(total) && Charged(files, archives) && PrunedFrom(before, files, archives, cutoff)
      ensures OnlyNeeded(before, files, incoming, more, cutoff)
      ensures faults >= old(faults) && (!ok ==> faults > old(faults))
      ensures ok ==> rest <= files.Keys && InOrder(before, files, rest) && Looked(files, archives, rest, total, incoming, more, cutoff)
    {
      hide PrunedFrom, InOrder, Looked, Charged, OnlyNeeded, WithinLimits, Sum;
      ok := true;
      var id := Oldest(todo);
      rest := todo - {id};
      if id !in archives {
        var expired := files[id].modified <= cutoff;
        if expired || !WithinLimits(|files|, total, |archives|, incoming, more, maxArchives, maxTotal) {
          if * {
            faults := faults + 1;
            return false, rest;
          }
          RemoveKeeps(before, todo, id, incoming, more, cutoff);
          total := total - files[id].bytes;
          files := files - {id};
          return;
        }
      }
      KeepKeeps(before, todo, id, incoming, more, cutoff);
    }

    /** Every finished archive that was looked at and stays is young enough, and the limits hold. */
    ghost predicate Looked(files: Files, archives: map<nat, nat>, todo: set<nat>, total: nat, incoming: nat, more: nat, cutoff: int) {
      forall id :: id in files && id !in archives && id !in todo ==>
        files[id].modified > cutoff && WithinLimits(|files|, total, |archives|, incoming, more, maxArchives, maxTotal)
    }

    /** Nothing was deleted without need: if anything that had not expired went, then the last of
        those would still break a limit. */
    ghost predicate OnlyNeeded(before: Files, after: Files, incoming: nat, more: nat, cutoff: int)
      reads this`archives
    {
      (exists gone :: Deleted(before, after, cutoff, gone)) ==>
        exists last :: Deleted(before, after, cutoff, last)
          && (|after| + 1 + incoming > maxArchives
              || Sum(after) + before[last].bytes + more + FOOTER_RESERVE * (|archives| + incoming) > maxTotal)
    }

    lemma KeepKeeps(before: Files, todo: set<nat>, id: nat, incoming: nat, more: nat, cutoff: int)
      requires id in todo && todo <= files.Keys && (forall other :: other in todo ==> files[id].modified <= files[other].modified)
      requires PrunedFrom(before, files, archives, cutoff) && InOrder(before, files, todo)
      requires Looked(files, archives, todo, total, incoming, more, cutoff)
      requires id !in archives ==>
        files[id].modified > cutoff && WithinLimits(|files|, total, |archives|, incoming, more, maxArchives, maxTotal)
      ensures InOrder(before, files, todo - {id}) && Looked(files, archives, todo - {id}, total, incoming, more, cutoff)
    {
    }

    lemma RemoveKeeps(before: Files, todo: set<nat>, id: nat, incoming: nat, more: nat, cutoff: int)
      requires id in todo && todo <= files.Keys && (forall other :: other in todo ==> files[id].modified <= files[other].modified)
      requires Charged(files, archives) && total == Sum(files) && id !in archives
      requires PrunedFrom(before, files, archives, cutoff) && InOrder(before, files, todo)
      requires Looked(files, archives, todo, total, incoming, more, cutoff)
      requires files[id].modified <= cutoff || !WithinLimits(|files|, total, |archives|, incoming, more, maxArchives, maxTotal)
      requires OnlyNeeded(before, files, incoming, more, cutoff)
      ensures OnlyNeeded(before, files - {id}, incoming, more, cutoff)
      ensures total >= files[id].bytes && total - files[id].bytes == Sum(files - {id}) && Charged(files - {id}, archives)
      ensures PrunedFrom(before, files - {id}, archives, cutoff) && InOrder(before, files - {id}, todo - {id})
      ensures Looked(files - {id}, archives, todo - {id}, total - files[id].bytes, incoming, more, cutoff)
    {
      SumWithout(files, id);
      OneFewer(files, id);
      if files[id].modified > cutoff {
        assert Deleted(before, files - {id}, cutoff, id);
      } else {
        forall gone | gone in before && gone !in files - {id} ensures before[gone].modified <= cutoff {
          assert gone != id ==> gone !in todo;
        }
      }
    }

    // -------------------------------------------------------------- archives

    /** `start`: prune for one more archive, check the limits, write the header. `pruned` is what
        pruning left. */
    method Start(id: nat, header: nat, cutoff: int, now: int) returns (accepted: bool, ghost pruned: Files)
      requires Valid() && id !in files
      modifies this`files, this`archives, this`total, this`faults
      ensures Valid() && faults >= old(faults) && PrunedFrom(old(files), pruned, old(archives), cutoff)
      ensures accepted ==> archives == old(archives)[id := header] && files == pruned[id := Owned(header, now)]
      ensures accepted ==> |old(archives)| < maxArchives && |files| <= maxArchives
      ensures !accepted ==> archives == old(archives) && files == pruned
      ensures !accepted && faults == old(faults) ==>
        header + FOOTER_RESERVE > maxSession || |archives| >= maxArchives || total + header + FOOTER_RESERVE * (|archives| + 1) > maxTotal
      ensures !accepted && faults == old(faults) && header + FOOTER_RESERVE <= maxSession ==>
        |archives| >= maxArchives || forall k :: k in files ==> k in archives
    {
      accepted := Prune(1, header, cutoff);
      assert id !in files;
      if accepted { FewFiles(files, archives, total, header, cutoff); }
      hide PrunedFrom, OnlyNeeded, WithinLimits, Sum, Charged;
      pruned := files;
      if !accepted { return; }
      accepted := false;
      if header + FOOTER_RESERVE > maxSession { return; }
      if total + header + FOOTER_RESERVE * (|archives| + 1) > maxTotal || |archives| >= maxArchives { return; }
      if * {
        faults := faults + 1;
        return;
      }
      Open(id, header, now);
      accepted := true;
    }

    /** What pruning for one more archive left is one below the limit, or all of it is open. */
    lemma FewFiles(files: Files, archives: map<nat, nat>, total: nat, header: nat, cutoff: int)
      requires forall id :: id in files && id !in archives ==>
        files[id].modified > cutoff && WithinLimits(|files|, total, |archives|, 1, header, maxArchives, maxTotal)
      ensures |files| + 1 <= maxArchives || |files| <= |archives|
    {
      if forall id :: id in files ==> id in archives { SubsetCount(files.Keys, archives.Keys); }
    }

    /** Write the header of a new archive and reserve its footer. */
    method Open(id: nat, header: nat, now: int)
      requires Valid() && id !in files && header + FOOTER_RESERVE <= maxSession
      requires total + header + FOOTER_RESERVE * (|archives| + 1) <= maxTotal
      modifies this`files, this`archives, this`total
      ensures Valid() && total == old(total) + header
      ensures files == old(files)[id := Owned(header, now)] && archives == old(archives)[id := header]
    {
      SumUpdated(files, id, Owned(header, now));
      OneMore(archives, id, header);
      files := files[id := Owned(header, now)];
      total := total + header;
      archives := archives[id := header];
    }

    /** `output`: check both limits, prune if that helps, charge, write. A partial write is
        rolled back; if that fails too, the charge stays. */
    method Output(id: nat, bytes: nat, cutoff: int, now: int, partial: nat) returns (written: bool, ghost pruned: Files)
      requires Valid() && partial <= bytes
      modifies this`files, this`archives, this`total, this`faults
      ensures Valid() && faults >= old(faults) && PrunedFrom(old(files), pruned, old(archives), cutoff)
      ensures written ==> Extended(old(archives), archives, pruned, files, id, bytes, bytes, now)
      ensures !written ==> (archives == old(archives) && files == pruned)
                           || (faults > old(faults) && Extended(old(archives), archives, pruned, files, id, bytes, partial, now))
      ensures !written && faults == old(faults) && id in archives ==>
        archives[id] + bytes + FOOTER_RESERVE > maxSession || total + bytes + FOOTER_RESERVE * |archives| > maxTotal
      ensures !written && faults == old(faults) && id in archives && archives[id] + bytes + FOOTER_RESERVE <= maxSession ==>
        forall k :: k in files ==> k in archives
    {
      written := MakeRoom(id, bytes, cutoff);
      pruned := files;
      hide PrunedFrom, Charged, Sum, Extended;
      if !written { return; }
      if * {
        Append(id, bytes, bytes, now);
      } else {
        written := false;
        faults := faults + 1;
        if * { Append(id, bytes, partial, now); }
      }
    }

    /** Both limits leave room for `bytes` more, after pruning if that is needed. */
    method MakeRoom(id: nat, bytes: nat, cutoff: int) returns (ok: bool)
      requires Valid()
      modifies this`files, this`total, this`faults
      ensures Valid() && faults >= old(faults) && PrunedFrom(old(files), files, archives, cutoff)
      ensures id in archives ==> id in old(files) && id in files && files[id] == old(files)[id]
      ensures ok ==> id in archives && archives[id] + bytes + FOOTER_RESERVE <= maxSession
                     && total + bytes + FOOTER_RESERVE * |archives| <= maxTotal
      ensures !ok && faults == old(faults) && id in archives ==>
        archives[id] + bytes + FOOTER_RESERVE > maxSession || total + bytes + FOOTER_RESERVE * |archives| > maxTotal
      ensures !ok && faults == old(faults) && id in archives && archives[id] + bytes + FOOTER_RESERVE <= maxSession ==>
        forall k :: k in files ==> k in archives
    {
      if id !in archives || archives[id] + bytes + FOOTER_RESERVE > maxSession { return false; }
      ok := true;
      if total + bytes + FOOTER_RESERVE * |archives| > maxTotal { ok := Prune(0, bytes, cutoff); }
      ok := ok && total + bytes + FOOTER_RESERVE * |archives| <= maxTotal;
    }

    /** Charge `bytes` and write `reached` of them. */
    method Append(id: nat, bytes: nat, reached: nat, now: int)
      requires Valid() && id in archives && reached <= bytes
      requires archives[id] + bytes + FOOTER_RESERVE <= maxSession
      requires total + bytes + FOOTER_RESERVE * |archives| <= maxTotal
      modifies this`files, this`archives, this`total
      ensures Valid() && total == old(total) + bytes && Extended(old(archives), archives, old(files), files, id, bytes, reached, now)
    {
      var f := Owned(files[id].bytes + reached, now);
      SumUpdated(files, id, f);
      SameCount(archives, id, archives[id] + bytes);
      files := files[id := f];
      total := total + bytes;
      archives := archives[id := archives[id] + bytes];
    }

    /** `finish_ready` for one archive: the footer takes the place of its reserve, and the file
        ends within the limit of a session. A footer that does not fit is not written. */
    method Finish(id: nat, footer: nat, now: int, partial: nat) returns (ok: bool)
      requires Valid() && id in archives && partial <= footer
      modifies this`files, this`archives, this`total, this`faults
      ensures Valid() && archives == old(archives) - {id} && faults >= old(faults)
      ensures total == old(total) + if footer <= FOOTER_RESERVE then footer else 0
      ensures id in files && files[id].bytes <= maxSession
      ensures ok ==> footer <= FOOTER_RESERVE && files == old(files)[id := Owned(old(files)[id].bytes + footer, now)]
      ensures !ok && footer <= FOOTER_RESERVE ==>
        faults > old(faults) && files == old(files)[id := Owned(old(files)[id].bytes + partial, now)]
      ensures footer > FOOTER_RESERVE ==> files == old(files)
    {
      ok := false;
      OneFewer(archives, id);
      if footer <= FOOTER_RESERVE {
        var reached := partial;
        if * { reached, ok := footer, true; } else { faults := faults + 1; }
        var f := Owned(files[id].bytes + reached, now);
        SumUpdated(files, id, f);
        files := files[id := f];
        total := total + footer;
      }
      archives := archives - {id};
    }
  }

  /** The first pruning of a new process brings any set of files within the quota. */
  method Initialize(files: Files, maxTotal: nat, maxSession: nat, maxArchives: nat, cutoff: int) returns (w: Writer, ok: bool)
    ensures fresh(w) && (ok ==> w.Valid()) && PrunedFrom(files, w.files, map[], cutoff)
    ensures !ok ==> w.faults > 0
    ensures ok ==> forall id :: id in w.files ==> w.files[id].modified > cutoff
  {
    w := new Writer(files, maxTotal, maxSession, maxArchives);
    ok := w.Prune(0, 0, cutoff);
    assert ok ==> w.files == map[] || exists id :: id in w.files && w.files[id].modified > cutoff;
  }

  /** What is gone is not younger than what is still to be looked at, nor is what was looked at. */
  ghost predicate InOrder(before: Files, files: Files, todo: set<nat>) {
    forall id, next :: id in before && id !in todo && next in todo && next in files ==>
      before[id].modified <= files[next].modified
  }
}
