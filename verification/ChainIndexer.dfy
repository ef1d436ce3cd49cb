/** The chain indexer: sections of the canonical chain are processed one after the other, while
    notifications of new heads and of reorganisations come in between. Each step below is one
    region under the indexer's lock, or one header handed to the backend outside of it. */
module ChainIndexers {
  import opened Options
  import opened Ancestry

  /** The hash n parent links above h. */
  ghost function Up(parent: Hash -> Hash, h: Hash, n: nat): Hash
    decreases n
  {
    if n == 0 then h else Up(parent, parent(h), n - 1)
  }

  lemma {:induction false} UpTwice(parent: Hash -> Hash, h: Hash, m: nat, n: nat)
    ensures Up(parent, h, m + n) == Up(parent, Up(parent, h, m), n)
    decreases m
  {
    if m != 0 { UpTwice(parent, parent(h), m - 1, n); }
  }

  /** The number of whole sections among that many blocks. */
  function Whole(blocks: nat, size: nat): nat
    requires 1 <= size
  {
    blocks / size
  }

  lemma Ordered(m: nat, n: nat, size: nat)
    requires m <= n
    ensures m * size <= n * size
  {
    assert n * size - m * size == (n - m) * size;
  }

  /** So many sections fit, and no more. */
  lemma WholeFits(blocks: nat, size: nat)
    requires 1 <= size
    ensures Whole(blocks, size) * size <= blocks < (Whole(blocks, size) + 1) * size
    ensures forall n: nat :: n <= Whole(blocks, size) <==> n * size <= blocks
  {
    var k := Whole(blocks, size);
    assert k * size <= blocks < (k + 1) * size by { assert blocks == k * size + blocks % size; }
    forall n: nat ensures n <= k <==> n * size <= blocks {
      if n <= k { Ordered(n, k, size); } else { Ordered(k + 1, n, size); }
    }
  }

  /** The number of blocks in n sections. */
  function Blocks(n: nat, size: nat): nat { n * size }

  lemma NoBlocks(size: nat)
    ensures Blocks(0, size) == 0
  {}

  lemma TooFew(head: nat, confirms: nat, size: nat)
    requires head < confirms && 1 <= size
    ensures forall n: nat :: 0 < n ==> n * size + confirms > head + 1
  {
    forall n: nat | 0 < n ensures n * size + confirms > head + 1 { Ordered(1, n, size); }
  }

  lemma WholeEnd(blocks: nat, size: nat)
    requires 1 <= size
    ensures Blocks(Whole(blocks, size), size) == blocks - blocks % size
  {}

  /** What going back by whole sections means in blocks. */
  lemma RevertedBlocks(size: nat, checkpoint: nat, head: nat, stored0: nat, stored: nat, known0: nat, known: nat,
                       cascaded0: int, cascaded: int)
    requires 1 <= size
    requires var k := Whole(head, size);
             var s, n := if k < checkpoint then checkpoint else k, if k < checkpoint then 0 else k;
             && stored == (if s < stored0 then s else stored0) && known == (if n < known0 then n else known0)
             && cascaded == if Blocks(n, size) < cascaded0 then Blocks(n, size) else cascaded0
    ensures stored * size <= head || stored <= checkpoint
    ensures stored < stored0 ==> head < (stored + 1) * size && checkpoint <= stored
    ensures known * size <= head && (head < checkpoint * size ==> known == 0)
    ensures checkpoint * size <= head && known < known0 ==> head < (known + 1) * size
    ensures var end := if head < checkpoint * size then 0 else head - head % size;
            cascaded == if end < cascaded0 then end else cascaded0
  {
    hide Whole;
    var k := Whole(head, size);
    WholeFits(head, size);
    assert checkpoint <= k <==> checkpoint * size <= head;
    assert stored <= k <==> stored * size <= head;
    assert known <= k <==> known * size <= head;
    if stored < stored0 { Ordered(k + 1, stored + 1, size); }
    assert Blocks(k, size) == head - head % size by { WholeEnd(head, size); }
    NoBlocks(size);
  }

  type Heads = map<int, Hash>

  /** The stored head of a section; the zero hash if there is none. */
  function SectionHead(heads: Heads, section: int): Hash { if section in heads then heads[section] else NO_HASH }

  /** The head of a section is reached from the head before it by exactly size headers. */
  ghost predicate Linked(parent: Hash -> Hash, size: nat, heads: Heads, section: int) {
    section in heads && Up(parent, heads[section], size) == SectionHead(heads, section - 1)
  }

  /** The stored heads are those of the sections processed and of those given by a checkpoint, all below the
      count; and every processed section follows the one before. */
  ghost predicate Sound(parent: Hash -> Hash, size: nat, heads: Heads, stored: nat, processed: set<int>,
                        given: set<int>) {
    && (forall k :: k in heads ==> 0 <= k < stored)
    && heads.Keys == processed + given && processed !! given
    && (forall k :: k in processed ==> Linked(parent, size, heads, k))
  }

  lemma BlocksStep(n: nat, size: nat)
    ensures Blocks(n + 1, size) == size + Blocks(n, size)
  {}

  /** Sections that were processed one after the other are one chain on top of the head they started from. */
  lemma {:induction false} SectionsAreOneChain(parent: Hash -> Hash, size: nat, heads: Heads, stored: nat,
                                               processed: set<int>, given: set<int>, from: int, n: nat)
    requires Sound(parent, size, heads, stored, processed, given)
    requires forall i :: from < i <= from + n ==> i in processed
    ensures Up(parent, SectionHead(heads, from + n), Blocks(n, size)) == SectionHead(heads, from)
    decreases n
  {
    hide Blocks;
    if n == 0 {
      assert Blocks(0, size) == 0 by { NoBlocks(size); }
    } else {
      var k := from + n;
      assert k in processed;
      assert Linked(parent, size, heads, k);
      SectionsAreOneChain(parent, size, heads, stored, processed, given, from, n - 1);
      BlocksStep(n - 1, size);
      UpTwice(parent, heads[k], size, Blocks(n - 1, size));
    }
  }

  function Under(s: set<int>, n: int): set<int> { set k | k in s && k < n }

  /** The members of s below n, and n itself if it belongs to it. */
  function UpTo(s: set<int>, n: int, own: bool): set<int> { if own then Under(s, n) + {n} else Under(s, n) }

  lemma SoundBelow(parent: Hash -> Hash, size: nat, heads: Heads, heads': Heads, stored: nat, sections: nat,
                   processed: set<int>, given: set<int>)
    requires Sound(parent, size, heads, stored, processed, given)
    requires forall k :: k in heads' <==> k in heads && k < sections
    requires forall k :: k in heads' ==> heads'[k] == heads[k]
    ensures Sound(parent, size, heads', sections, Under(processed, sections), Under(given, sections))
  {
    forall k | k in processed && k < sections ensures Linked(parent, size, heads', k) {
      assert Linked(parent, size, heads, k);
    }
    forall k ensures k in heads'.Keys <==> k in Under(processed, sections) + Under(given, sections) {
      assert k in heads.Keys <==> k in processed + given;
    }
  }

  /** A new head for a section, on top of the one before it. */
  lemma SoundCommit(parent: Hash -> Hash, size: nat, heads: Heads, heads': Heads, stored: nat,
                    processed: set<int>, given: set<int>, section: nat, head: Hash, found: bool)
    requires Sound(parent, size, heads, stored, processed, given)
    requires found ==> Up(parent, head, size) == SectionHead(heads, section - 1)
    requires forall k :: k in heads' <==> (k in heads && k < section) || k == section
    requires forall k :: k in heads' ==> heads'[k] == if k == section then head else heads[k]
    ensures Sound(parent, size, heads', section + 1, UpTo(processed, section, found), UpTo(given, section, !found))
  {
    forall k | k in processed && k < section ensures Linked(parent, size, heads', k) {
      assert Linked(parent, size, heads, k);
    }
    forall k ensures k in heads'.Keys <==> k in Under(processed, section) + Under(given, section) + {section} {
      assert k in heads.Keys <==> k in processed + given;
    }
  }

  /** The sections that are stored where there has been at most one checkpoint: all from the first on or,
      if the checkpoint has left a gap, those before it and all from the checkpoint's on. */
  ghost predicate Shaped(heads: Heads, stored: nat, given: set<int>, checkpoint: nat, low: nat, high: nat) {
    && low <= high <= stored && (forall k :: k in heads <==> 0 <= k < low || high <= k < stored)
    && (forall k :: k in heads ==> heads[k] != NO_HASH)
    && (given == {} || (given == {high} && checkpoint == high + 1 <= stored))
    && (given == {} || checkpoint == 0 ==> low == high && given == {})
  }

  lemma HeadAdded(heads: Heads, heads': Heads, section: nat, head: Hash)
    requires forall k :: k in heads ==> k < section
    requires forall k :: k in heads' <==> (k in heads && k < section) || k == section
    requires forall k :: k in heads' ==> heads'[k] == if k == section then head else heads[k]
    ensures heads' == heads[section := head]
  {
    var h := heads[section := head];
    assert forall k :: k in heads' <==> k in h;
    assert forall k :: k in h ==> h[k] == heads'[k];
  }

  /** A section on top of one that is stored, or of none. */
  lemma ShapedCommit(heads: Heads, heads': Heads, stored: nat, given: set<int>, checkpoint: nat, low: nat, high: nat,
                     section: nat, head: Hash)
    requires Shaped(heads, stored, given, checkpoint, low, high) && head != NO_HASH
    requires (section == 0 || section - 1 in heads)
    requires forall k :: k in heads' <==> (k in heads && k < section) || k == section
    requires forall k :: k in heads' ==> heads'[k] == if k == section then head else heads[k]
    ensures var cut := UpTo(given, section, false);
            if cut == {} then Shaped(heads', section + 1, cut, checkpoint, section + 1, section + 1)
            else Shaped(heads', section + 1, cut, checkpoint, low, high)
  {
    assert high in given && high < section ==> high in Under(given, section);
  }

  lemma ShapedCheckpoint(heads: Heads, heads': Heads, stored: nat, low: nat, high: nat, section: nat, head: Hash)
    requires Shaped(heads, stored, {}, section + 1, low, high) && head != NO_HASH && stored <= section
    requires forall k :: k in heads' <==> (k in heads && k < section) || k == section
    requires forall k :: k in heads' ==> heads'[k] == if k == section then head else heads[k]
    ensures Shaped(heads', section + 1, UpTo({}, section, true), section + 1, stored, section)
  {
    assert Under({}, section) + {section} == {section};
  }

  lemma ShapedNext(heads: Heads, heads': Heads, stored: nat, given: set<int>, checkpoint: nat, low: nat, high: nat,
                   section: nat, head: Hash, found: bool)
    requires Shaped(heads, stored, given, checkpoint, low, high) && head != NO_HASH
    requires if found then section == 0 || section - 1 in heads
             else stored <= section && given == {} && checkpoint == section + 1
    requires forall k :: k in heads' <==> (k in heads && k < section) || k == section
    requires forall k :: k in heads' ==> heads'[k] == if k == section then head else heads[k]
    ensures var cut := UpTo(given, section, !found);
            if !found then Shaped(heads', section + 1, cut, checkpoint, stored, section)
            else if cut == {} then Shaped(heads', section + 1, cut, checkpoint, section + 1, section + 1)
            else Shaped(heads', section + 1, cut, checkpoint, low, high)
  {
    hide Shaped;
    if found {
      ShapedCommit(heads, heads', stored, given, checkpoint, low, high, section, head);
    } else {
      ShapedCheckpoint(heads, heads', stored, low, high, section, head);
    }
  }

  /** The head of the last section leads back to the checkpoint's, or to where there is no block before. */
  lemma LastHead(parent: Hash -> Hash, size: nat, heads: Heads, stored: nat, processed: set<int>, given: set<int>,
                 checkpoint: nat, low: nat, high: nat)
    requires Sound(parent, size, heads, stored, processed, given) && Shaped(heads, stored, given, checkpoint, low, high)
    ensures given == {} ==> Up(parent, SectionHead(heads, stored - 1), Blocks(stored, size)) == NO_HASH
    ensures given != {} ==>
              && high < stored && high in heads
              && Up(parent, SectionHead(heads, stored - 1), Blocks(stored - 1 - high, size)) == heads[high]
  {
    hide Up, Linked, Blocks;
    assert forall k :: k in processed <==> k in heads.Keys && k !in given;
    assert -1 !in heads;
    if given == {} {
      SectionsAreOneChain(parent, size, heads, stored, processed, given, -1, stored);
    } else {
      SectionsAreOneChain(parent, size, heads, stored, processed, given, high, stored - 1 - high);
    }
  }

  lemma HeadsBelow(parent: Hash -> Hash, size: nat, heads: Heads, stored: nat, processed: set<int>, given: set<int>)
    requires Sound(parent, size, heads, stored, processed, given)
    ensures forall k :: k in heads ==> 0 <= k < stored
  {}

  lemma AllBelow(parent: Hash -> Hash, size: nat, heads: Heads, stored: nat, processed: set<int>, given: set<int>,
                 section: nat)
    requires Sound(parent, size, heads, stored, processed, given) && stored <= section
    ensures Under(processed, section) == processed && Under(given, section) == given
  {
    forall k | k in processed + given ensures k < section { assert k in heads.Keys; }
  }

  /** Which heads are stored, and where the last one leads. */
  lemma WhereTo(parent: Hash -> Hash, size: nat, heads: Heads, stored: nat, processed: set<int>, given: set<int>,
                checkpoint: nat, low: nat, high: nat)
    requires Sound(parent, size, heads, stored, processed, given) && Shaped(heads, stored, given, checkpoint, low, high)
    ensures checkpoint == 0 ==> given == {}
    ensures given == {} ==>
              && (forall k :: k in heads <==> 0 <= k < stored)
              && Up(parent, SectionHead(heads, stored - 1), Blocks(stored, size)) == NO_HASH
    ensures given != {} ==>
              && given == {high} && high < stored
              && (forall k :: k in heads <==> 0 <= k < low || high <= k < stored)
              && Up(parent, SectionHead(heads, stored - 1), Blocks(stored - 1 - high, size)) == heads[high]
  {
    hide Sound, Up, Blocks;
    LastHead(parent, size, heads, stored, processed, given, checkpoint, low, high);
  }

  /** A section taken on by the update loop: how far it has got, and from where. */
  datatype Job = Job(section: nat, oldHead: Hash, number: nat, lastHead: Hash, failed: bool)

  datatype Step =
    | NewHead(head: nat, reorg: bool, synced: Hash)
    | Checkpoint(section: nat, sectionHead: Hash)
    | Begin
    | Header(hash: Hash, found: bool)
    | ResetFails
    | BackendFails
    | Finish

  /** Some checkpoint is for section k. */
  ghost predicate Announced(steps: seq<Step>, k: int) {
    exists step :: step in steps && step.Checkpoint? && step.section == k
  }

  /** At most one checkpoint is added, counting one that is there, and none with the zero hash. */
  ghost predicate Checkpoints(present: nat, steps: seq<Step>)
    decreases |steps|
  {
    steps == [] ||
    if steps[0].Checkpoint? then
      present == 0 && steps[0].sectionHead != NO_HASH && Checkpoints(steps[0].section + 1, steps[1..])
    else Checkpoints(present, steps[1..])
  }

  lemma {:induction false} NoCheckpoints(present: nat, steps: seq<Step>)
    requires forall step :: step in steps ==> !step.Checkpoint?
    ensures Checkpoints(present, steps)
    decreases |steps|
  {
    if steps != [] {
      assert steps[0] in steps;
      NoCheckpoints(present, steps[1..]);
    }
  }

  class ChainIndexer {
    /** The parent hash in the header with a given hash. */
    const parent: Hash -> Hash
    const sectionSize: nat
    const confirmsReq: nat
    var storedSections: nat
    var knownSections: nat
    var cascadedHead: int
    var checkpointSections: nat
    var checkpointHead: Hash
    var heads: Heads
    var job: Option<Job>
    /** The sections whose head was found by processing, and those whose head a checkpoint gave. */
    ghost var processed: set<int>
    ghost var given: set<int>
    /** Whether there has been at most one checkpoint, and no zero hash as one; and where the gap is then. */
    ghost var single: bool
    ghost var low: nat
    ghost var high: nat

    ghost predicate Stored()
      reads this
    {
      && 1 <= sectionSize && Sound(parent, sectionSize, heads, storedSections, processed, given)
      && (single ==> Shaped(heads, storedSections, given, checkpointSections, low, high))
    }

    /** The headers processed so far lead back to the head the job started from. */
    ghost predicate Underway(j: Job)
      reads this
    {
      && j.section * sectionSize <= j.number <= (j.section + 1) * sectionSize
      && Up(parent, j.lastHead, j.number - j.section * sectionSize) == j.oldHead
      && (j.section * sectionSize < j.number ==> j.lastHead != NO_HASH)
      && (single && j.section > 0 ==> j.oldHead != NO_HASH)
    }

    ghost predicate Valid()
      reads this
    {
      Stored() && (job.Some? ==> Underway(job.value))
    }

    constructor (parentOf: Hash -> Hash, size: nat, confirms: nat)
      requires 1 <= size
      ensures Valid() && parent == parentOf && sectionSize == size && confirmsReq == confirms
      ensures storedSections == knownSections == checkpointSections == 0 && heads == map[] && job == None && single
    {
      parent, sectionSize, confirmsReq := parentOf, size, confirms;
      storedSections, knownSections, cascadedHead, checkpointSections, checkpointHead := 0, 0, 0, 0, NO_HASH;
      heads, job, processed, given, single, low, high := map[], None, {}, {}, true, 0, 0;
    }

    /** Sets the number of valid sections, and forgets the heads of those that no longer are. */
    method SetValidSections(sections: nat)
      requires forall k :: k in heads ==> 0 <= k && (k < storedSections || k < sections)
      modifies this`storedSections, this`heads
      ensures storedSections == sections
      ensures forall k :: k in heads <==> k in old(heads) && k < sections
      ensures forall k :: k in heads ==> heads[k] == old(heads)[k]
    {
      while storedSections > sections
        invariant forall k :: k in heads <==> k in old(heads) && (k < storedSections || k < sections)
        invariant forall k :: k in heads ==> heads[k] == old(heads)[k]
      {
        storedSections := storedSections - 1;
        heads := heads - {storedSections};
      }
      storedSections := sections;
    }

    /** Forgets sections, down to a number. */
    method Rollback(sections: nat)
      requires Stored() && sections < storedSections
      requires single && given != {} ==> sections == 0 || checkpointSections <= sections
      modifies this`storedSections, this`heads, this`processed, this`given, this`low, this`high
      ensures Stored() && storedSections == sections
      ensures forall k :: k in heads <==> k in old(heads) && k < sections
      ensures forall k :: k in heads ==> heads[k] == old(heads)[k]
      ensures processed == Under(old(processed), sections) && given == Under(old(given), sections)
    {
      hide Sound;
      SetValidSections(sections) by { HeadsBelow(parent, sectionSize, heads, storedSections, processed, given); }
      SoundBelow(parent, sectionSize, old(heads), heads, old(storedSections), sections, processed, given);
      processed, given := Under(processed, sections), Under(given, sections);
      if old(given) == {} || sections == 0 { low, high := sections, sections; }
    }

    /** Stores the head of a section, which becomes the last one. */
    method Commit(section: nat, head: Hash, ghost found: bool)
      requires Stored()
      requires found ==> Up(parent, head, sectionSize) == SectionHead(heads, section - 1)
      requires single && found ==> head != NO_HASH && (section == 0 || section - 1 in heads)
      requires single && !found ==>
                 head != NO_HASH && storedSections <= section && given == {} && checkpointSections == section + 1
      modifies this`storedSections, this`heads, this`processed, this`given, this`low, this`high
      ensures Stored() && storedSections == section + 1
      ensures forall k :: k in heads <==> (k in old(heads) && k < section) || k == section
      ensures forall k :: k in heads ==> heads[k] == if k == section then head else old(heads)[k]
      ensures processed == UpTo(old(processed), section, found) && given == UpTo(old(given), section, !found)
    {
      hide Sound, Up, Shaped, Under, UpTo;
      HeadsBelow(parent, sectionSize, heads, storedSections, processed, given);
      heads := heads[section := head];
      SetValidSections(section + 1);
      SoundCommit(parent, sectionSize, old(heads), heads, old(storedSections), processed, given, section, head, found);
      if single {
        ShapedNext(old(heads), heads, old(storedSections), given, checkpointSections, low, high, section, head, found);
      }
      processed, given := UpTo(processed, section, found), UpTo(given, section, !found);
      if !found {
        low, high := old(storedSections), section;
      } else if given == {} {
        low, high := section + 1, section + 1;
      }
    }

    /** A checkpoint stands for all sections up to its own, unless that one is stored already. */
    method AddCheckpoint(section: nat, sectionHead: Hash)
      requires Valid()
      modifies this
      ensures Valid() && checkpointSections == section + 1 && checkpointHead == sectionHead
      ensures knownSections == old(knownSections) && cascadedHead == old(cascadedHead) && job == old(job)
      ensures processed == old(processed)
      ensures if section < old(storedSections)
              then storedSections == old(storedSections) && heads == old(heads) && given == old(given)
              else && storedSections == section + 1 && heads == old(heads)[section := sectionHead]
                   && given == old(given) + {section}
      ensures single == (old(single) && old(checkpointSections) == 0 && sectionHead != NO_HASH)
    {
      hide Sound, Up;
      single := single && checkpointSections == 0 && sectionHead != NO_HASH;
      checkpointSections, checkpointHead := section + 1, sectionHead;
      if section < storedSections { return; }
      HeadsBelow(parent, sectionSize, heads, storedSections, processed, given);
      AllBelow(parent, sectionSize, heads, storedSections, processed, given, section);
      Commit(section, sectionHead, false);
      HeadAdded(old(heads), heads, section, sectionHead);
    }

    /** A new chain head, or the point down to which the chain was reorganised. After the latter no
        section that reaches beyond that point is left, except those of the checkpoint; and exactly the
        sections below the new count are. */
    /** Goes back to the sections below a head that the chain was rolled back to. */
    method Revert(head: nat)
      requires Valid()
      modifies this
      ensures Valid() && checkpointSections == old(checkpointSections) && checkpointHead == old(checkpointHead)
      ensures job == old(job) && single == old(single)
      ensures forall k :: k in heads <==> k in old(heads) && k < storedSections
      ensures forall k :: k in heads ==> heads[k] == old(heads)[k]
      ensures processed == Under(old(processed), storedSections) && given == Under(old(given), storedSections)
      ensures storedSections <= old(storedSections)
      ensures storedSections * sectionSize <= head || storedSections <= checkpointSections
      ensures storedSections < old(storedSections) ==>
                head < (storedSections + 1) * sectionSize && checkpointSections <= storedSections
      ensures knownSections <= old(knownSections) && knownSections * sectionSize <= head
      ensures head < checkpointSections * sectionSize ==> knownSections == 0
      ensures checkpointSections * sectionSize <= head && knownSections < old(knownSections) ==>
                head < (knownSections + 1) * sectionSize
      ensures var end := if head < checkpointSections * sectionSize then 0 else head - head % sectionSize;
              cascadedHead == if end < old(cascadedHead) then end else old(cascadedHead)
    {
      hide Sound, Whole;
      HeadsBelow(parent, sectionSize, heads, storedSections, processed, given);
      AllBelow(parent, sectionSize, heads, storedSections, processed, given, storedSections);
      var known := Whole(head, sectionSize);
      var stored := known;
      if known < checkpointSections { known := 0; }
      if stored < checkpointSections { stored := checkpointSections; }
      if known < knownSections { knownSections := known; }
      if stored < storedSections { Rollback(stored); }
      var finalized := Blocks(known, sectionSize);
      if finalized < cascadedHead { cascadedHead := finalized; }
      RevertedBlocks(sectionSize, checkpointSections, head, old(storedSections), storedSections, old(knownSections),
                     knownSections, old(cascadedHead), cascadedHead);
    }

    /** Takes note of sections that a new head completes. */
    method Extend(head: nat, synced: Hash)
      requires Valid()
      modifies this`knownSections
      ensures Valid() && knownSections >= old(knownSections)
      ensures knownSections > old(knownSections) ==>
                && knownSections * sectionSize + confirmsReq <= head + 1
                && head + 1 < (knownSections + 1) * sectionSize + confirmsReq
                && knownSections >= checkpointSections
                && (old(knownSections) >= checkpointSections || synced == checkpointHead)
      ensures old(knownSections) >= checkpointSections || synced == checkpointHead ==>
                forall n: nat :: checkpointSections <= n && 0 < n && n * sectionSize + confirmsReq <= head + 1 ==>
                  n <= knownSections
    {
      hide Sound, Whole, Shaped;
      if head >= confirmsReq {
        var sections := Whole(head + 1 - confirmsReq, sectionSize);
        WholeFits(head + 1 - confirmsReq, sectionSize);
        if sections < checkpointSections { sections := 0; }
        if sections > knownSections {
          if knownSections < checkpointSections && synced != checkpointHead { return; }
          knownSections := sections;
        }
      } else {
        TooFew(head, confirmsReq, sectionSize);
      }
    }

    method OnNewHead(head: nat, reorg: bool, synced: Hash)
      requires Valid()
      modifies this
      ensures Valid() && checkpointSections == old(checkpointSections) && checkpointHead == old(checkpointHead)
      ensures job == old(job) && single == old(single)
      ensures forall k :: k in heads <==> k in old(heads) && k < storedSections
      ensures forall k :: k in heads ==> heads[k] == old(heads)[k]
      ensures processed == Under(old(processed), storedSections) && given == Under(old(given), storedSections)
      ensures reorg ==>
                && storedSections <= old(storedSections)
                && (storedSections * sectionSize <= head || storedSections <= checkpointSections)
                && (storedSections < old(storedSections) ==>
                      head < (storedSections + 1) * sectionSize && checkpointSections <= storedSections)
      ensures reorg ==>
                && knownSections <= old(knownSections) && knownSections * sectionSize <= head
                && (head < checkpointSections * sectionSize ==> knownSections == 0)
                && (checkpointSections * sectionSize <= head && knownSections < old(knownSections) ==>
                      head < (knownSections + 1) * sectionSize)
      ensures reorg ==>
                var end := if head < checkpointSections * sectionSize then 0 else head - head % sectionSize;
                cascadedHead == if end < old(cascadedHead) then end else old(cascadedHead)
      ensures !reorg ==>
                storedSections == old(storedSections) && heads == old(heads) && cascadedHead == old(cascadedHead)
      ensures !reorg ==> knownSections >= old(knownSections)
      ensures !reorg && knownSections > old(knownSections) ==>
                && knownSections * sectionSize + confirmsReq <= head + 1
                && head + 1 < (knownSections + 1) * sectionSize + confirmsReq
                && knownSections >= checkpointSections
                && (old(knownSections) >= checkpointSections || synced == checkpointHead)
      ensures !reorg && (old(knownSections) >= checkpointSections || synced == checkpointHead) ==>
                forall n: nat :: checkpointSections <= n && 0 < n && n * sectionSize + confirmsReq <= head + 1 ==>
                  n <= knownSections
    {
      hide Sound, Whole;
      HeadsBelow(parent, sectionSize, heads, storedSections, processed, given);
      AllBelow(parent, sectionSize, heads, storedSections, processed, given, storedSections);
      if reorg { Revert(head); } else { Extend(head, synced); }
    }

    /** Takes on the next section, if one is known to be complete. */
    method BeginUpdate()
      requires Valid()
      modifies this`job
      ensures Valid()
      ensures job == if old(job) == None && knownSections > storedSections
                     then Some(Job(storedSections, SectionHead(heads, storedSections - 1), storedSections * sectionSize,
                                   SectionHead(heads, storedSections - 1), false))
                     else old(job)
    {
      if job == None && knownSections > storedSections {
        var oldHead := if storedSections > 0 then SectionHead(heads, storedSections - 1) else NO_HASH;
        job := Some(Job(storedSections, oldHead, storedSections * sectionSize, oldHead, false));
      }
    }

    /** Hands the canonical header of the next number to the backend; the hash is the zero hash if
        there is none. A header that does not follow the last one breaks the job off. */
    method ProcessHeader(hash: Hash, found: bool)
      requires Valid()
      modifies this`job
      ensures Valid()
      ensures job == if old(job) == None || old(job).value.failed
                        || old(job).value.number == (old(job).value.section + 1) * sectionSize
                     then old(job)
                     else if hash == NO_HASH || !found || parent(hash) != old(job).value.lastHead
                     then Some(old(job).value.(failed := true))
                     else Some(old(job).value.(number := old(job).value.number + 1, lastHead := hash))
    {
      if job.Some? && !job.value.failed && job.value.number < (job.value.section + 1) * sectionSize {
        var j := job.value;
        if hash == NO_HASH || !found || parent(hash) != j.lastHead {
          job := Some(j.(failed := true));
        } else {
          job := Some(j.(number := j.number + 1, lastHead := hash));
        }
      }
    }

    /** The backend cannot be reset, which makes all sections invalid. */
    method ResetFails()
      requires Valid()
      modifies this
      ensures Valid() && knownSections == old(knownSections)
      ensures checkpointSections == old(checkpointSections) && single == old(single)
      ensures if old(job.Some? && !job.value.failed && job.value.number == job.value.section * sectionSize)
              then && storedSections == 0 && heads == map[] && processed == given == {}
                   && job == Some(old(job).value.(failed := true))
              else && storedSections == old(storedSections) && heads == old(heads) && job == old(job)
                   && processed == old(processed) && given == old(given)
    {
      if job.Some? && !job.value.failed && job.value.number == job.value.section * sectionSize {
        if storedSections > 0 { Rollback(0); }
        assert forall k :: k !in heads;
        assert heads == map[];
        assert forall k :: k in processed + given ==> k in heads.Keys;
        job := Some(job.value.(failed := true));
      }
    }

    /** The backend rejects a header or the whole section. */
    method BackendFails()
      requires Valid()
      modifies this`job
      ensures Valid() && job == if old(job) == None then None else Some(old(job).value.(failed := true))
    {
      if job.Some? { job := Some(job.value.(failed := true)); }
    }

    /** Ends a job. The section is stored if all its headers were processed and the head it started
        from is still the head of the section before. */
    method FinishUpdate() returns (stored: bool)
      requires Valid()
      modifies this
      ensures Valid()
      ensures stored <==> old(job.Some? && !job.value.failed
                              && job.value.number == (job.value.section + 1) * sectionSize
                              && SectionHead(heads, job.value.section - 1) == job.value.oldHead)
      ensures checkpointSections == old(checkpointSections) && single == old(single)
      ensures stored ==> var section := old(job).value.section;
                && job == None && storedSections == section + 1
                && SectionHead(heads, section) == old(job).value.lastHead
                && (forall k :: k in heads <==> (k in old(heads) && k < section) || k == section)
                && (forall k :: k in heads && k != section ==> heads[k] == old(heads)[k])
                && processed == Under(old(processed), section) + {section} && given == Under(old(given), section)
      ensures stored ==> cascadedHead == storedSections * sectionSize - 1 && knownSections == old(knownSections)
      ensures !stored ==> heads == old(heads) && storedSections == old(storedSections)
                          && processed == old(processed) && given == old(given)
      ensures !stored && job != old(job) ==> job == None && knownSections == storedSections
    {
      hide Sound, Up;
      stored := false;
      if job == None { return; }
      var j := job.value;
      if !j.failed && j.number < (j.section + 1) * sectionSize { return; }
      job := None;
      if !j.failed && j.oldHead == SectionHead(heads, j.section - 1) {
        assert j.number - j.section * sectionSize == sectionSize;
        Commit(j.section, j.lastHead, true);
        cascadedHead := storedSections * sectionSize - 1;
        stored := true;
      } else {
        knownSections := storedSections;
      }
    }

    /** Any interleaving of notifications with the steps of the update loop keeps the sections sound. Without a
        checkpoint the stored heads are exactly those of the sections below the count, and the last one leads back
        through all their headers to where there is no block before. With one it leads back to the checkpoint's. */
    method Run(steps: seq<Step>)
      requires Valid()
      modifies this
      ensures Valid() && single == (old(single) && Checkpoints(old(checkpointSections), steps))
      ensures forall k :: k in given ==> k in old(given) || Announced(steps, k)
      ensures old(single) && old(checkpointSections) == 0 && (forall step :: step in steps ==> !step.Checkpoint?) ==>
                && given == {} && (forall k :: k in heads <==> 0 <= k < storedSections)
                && Up(parent, SectionHead(heads, storedSections - 1), Blocks(storedSections, sectionSize)) == NO_HASH
      ensures single && given != {} ==>
                && given == {high} && high < storedSections
                && (forall k :: k in heads <==> 0 <= k < low || high <= k < storedSections)
                && Up(parent, SectionHead(heads, storedSections - 1), Blocks(storedSections - 1 - high, sectionSize))
                   == heads[high]
    {
      hide Sound, Shaped, Up, Blocks;
      if forall step :: step in steps ==> !step.Checkpoint? { NoCheckpoints(checkpointSections, steps); }
      assert steps[..0] == [] && steps[0..] == steps;
      for i := 0 to |steps|
        invariant Valid() && forall k :: k in given ==> k in old(given) || Announced(steps, k)
        invariant (single && Checkpoints(checkpointSections, steps[i..]))
                  == (old(single) && Checkpoints(old(checkpointSections), steps))
        invariant (forall step :: step in steps ==> !step.Checkpoint?) ==> checkpointSections == old(checkpointSections)
      {
        assert steps[i] in steps;
        assert steps[i..][0] == steps[i] && steps[i..][1..] == steps[i + 1..];
        match steps[i] {
          case NewHead(head, reorg, synced) => OnNewHead(head, reorg, synced);
          case Checkpoint(section, sectionHead) => AddCheckpoint(section, sectionHead);
          case Begin => BeginUpdate();
          case Header(hash, found) => ProcessHeader(hash, found);
          case ResetFails => ResetFails();
          case BackendFails => BackendFails();
          case Finish => var _ := FinishUpdate();
        }
      }
      if single {
        WhereTo(parent, sectionSize, heads, storedSections, processed, given, checkpointSections, low, high);
      }
    }
  }

  /** A checkpoint that is added while a section is being processed is lost when that section is stored. */
  method CheckpointUndone(genesis: Hash, trusted: Hash, parent: Hash -> Hash) returns (stored: nat, checkpoint: nat)
    requires genesis != NO_HASH && parent(genesis) == NO_HASH
    ensures stored == 1 && checkpoint == 6
  {
    var indexer := new ChainIndexer(parent, 1, 0);
    indexer.OnNewHead(1, false, NO_HASH);
    indexer.BeginUpdate();
    assert indexer.job == Some(Job(0, NO_HASH, 0, NO_HASH, false));
    indexer.AddCheckpoint(5, trusted);
    indexer.ProcessHeader(genesis, true);
    assert indexer.job == Some(Job(0, NO_HASH, 1, genesis, false));
    var _ := indexer.FinishUpdate();
    stored, checkpoint := indexer.storedSections, indexer.checkpointSections;
  }
}
