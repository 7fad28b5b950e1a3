/** The upload pool: workers that share one index into the files, and finish their uploads in any order. */
module UploadPool {
  import opened Wrappers

  type Url = nat

  datatype UploadError = AllUploadsFailed | InvalidArrayLength

  datatype Uploads = Uploads(data: seq<Url>, failed: seq<string>)

  /** What the upload of each file comes to: a stored file, or an error. */
  type Outcomes = nat -> Option<Url>

  // ---- What the pool is for ----

  /** The stored files among the first `n`, in input order. */
  function Stored(outcomes: Outcomes, n: nat): seq<Url> {
    if n == 0 then []
    else Stored(outcomes, n - 1) + match outcomes(n - 1) case Some(url) => [url] case None => []
  }

  /** The indices below `n`. */
  function Below(n: nat): (r: set<nat>)
    ensures forall i: nat :: i in r <==> i < n
  {
    if n == 0 then {} else Below(n - 1) + {n - 1}
  }

  lemma {:induction false} BelowSize(n: nat)
    ensures |Below(n)| == n
  {
    if n > 0 {
      BelowSize(n - 1);
    }
  }

  /** Those of the files that failed. */
  function Lost(outcomes: Outcomes, files: set<nat>): set<nat> {
    set i | i in files && outcomes(i).None?
  }

  lemma LostNext(outcomes: Outcomes, files: set<nat>, i: nat)
    requires i !in files
    ensures Lost(outcomes, files + {i}) == Lost(outcomes, files) + if outcomes(i).None? then {i} else {}
    ensures |Lost(outcomes, files + {i})| == |Lost(outcomes, files)| + if outcomes(i).None? then 1 else 0
  {
    assert i !in Lost(outcomes, files);
  }

  /** Every file is either stored or lost. */
  lemma {:induction false} StoredOrLost(outcomes: Outcomes, n: nat)
    ensures |Stored(outcomes, n)| + |Lost(outcomes, Below(n))| == n
  {
    if n > 0 {
      StoredOrLost(outcomes, n - 1);
      LostNext(outcomes, Below(n - 1), n - 1);
    } else {
      assert Lost(outcomes, Below(0)) == {};
    }
  }

  lemma {:induction false} NoneStored(outcomes: Outcomes, n: nat)
    ensures Stored(outcomes, n) == [] <==> forall i: nat :: i < n ==> outcomes(i).None?
  {
    if n > 0 {
      NoneStored(outcomes, n - 1);
    }
  }

  /** A stored file comes after all that were stored before it in the input, and no others. */
  lemma {:induction false} StoredInOrder(outcomes: Outcomes, n: nat, i: nat)
    requires i < n && outcomes(i).Some?
    ensures |Lost(outcomes, Below(i))| <= i
    ensures var k := i - |Lost(outcomes, Below(i))|;
            k < |Stored(outcomes, n)| && Stored(outcomes, n)[k] == outcomes(i).value
    decreases n
  {
    StoredOrLost(outcomes, i);
    if i < n - 1 {
      StoredInOrder(outcomes, n - 1, i);
    }
  }

  /** `order` lists the members of a set, each once. */
  ghost predicate Lists(order: seq<nat>, files: set<nat>) {
    && (forall k, l :: 0 <= k < l < |order| ==> order[k] != order[l])
    && (forall k :: 0 <= k < |order| ==> order[k] in files)
    && |order| == |files|
  }

  /** The names of the failed files, in the order they failed. */
  ghost predicate NamesLost(names: seq<string>, outcomes: Outcomes, finished: set<nat>, order: seq<nat>,
                            failed: seq<string>) {
    && Lists(order, Lost(outcomes, finished))
    && |failed| == |order|
    && forall k :: 0 <= k < |order| ==> order[k] < |names| && failed[k] == names[order[k]]
  }

  // ---- Slots ----

  /** The array of results without its holes. */
  function Filled(slots: seq<Option<Url>>): seq<Url> {
    if slots == [] then []
    else Filled(slots[..|slots| - 1]) + match slots[|slots| - 1] case Some(url) => [url] case None => []
  }

  lemma {:induction false} FilledIsStored(slots: seq<Option<Url>>, outcomes: Outcomes)
    requires forall i :: 0 <= i < |slots| ==> slots[i] == outcomes(i)
    ensures Filled(slots) == Stored(outcomes, |slots|)
  {
    if slots != [] {
      FilledIsStored(slots[..|slots| - 1], outcomes);
    }
  }

  // ---- The pool ----

  /** Each of the first `n` files has been tried once, in order. */
  ghost predicate TriedOnce(tried: seq<int>, n: nat) {
    |tried| == n && forall k :: 0 <= k < n ==> tried[k] == k
  }

  /** The indices taken so far are finished or with a worker, and each outcome is where it belongs. */
  ghost predicate Progress(names: seq<string>, outcomes: Outcomes, index: nat, current: set<nat>, finished: set<nat>,
                           slots: seq<Option<Url>>) {
    && index <= |names| == |slots|
    && current !! finished
    && (forall i: nat :: i in current || i in finished <==> i < index)
    && forall i :: 0 <= i < |slots| ==> slots[i] == if i in finished then outcomes(i) else None
  }

  lemma RecordLost(names: seq<string>, outcomes: Outcomes, finished: set<nat>, order: seq<nat>, failed: seq<string>,
                   i: nat)
    requires NamesLost(names, outcomes, finished, order, failed) && i < |names| && i !in finished
    ensures if outcomes(i).None? then
              NamesLost(names, outcomes, finished + {i}, order + [i], failed + [names[i]])
            else NamesLost(names, outcomes, finished + {i}, order, failed)
  {
    LostNext(outcomes, finished, i);
  }

  function Larger(a: nat, b: nat): nat { if a < b then b else a }

  /** The pool between two completions. */
  ghost predicate Working(names: seq<string>, outcomes: Outcomes, size: nat, index: nat, current: set<nat>,
                          finished: set<nat>, slots: seq<Option<Url>>, order: seq<nat>, failed: seq<string>,
                          tried: seq<int>) {
    && Progress(names, outcomes, index, current, finished, slots)
    && NamesLost(names, outcomes, finished, order, failed)
    && TriedOnce(tried, index)
    && |current| <= size <= index && (index < |names| ==> |current| == size) && (size == 0 ==> index == 0)
  }

  lemma Started(names: seq<string>, outcomes: Outcomes, size: nat, current: set<nat>, slots: seq<Option<Url>>,
                tried: seq<int>)
    requires size <= |names| == |slots| && current == Below(size) && TriedOnce(tried, size)
    requires forall i :: 0 <= i < |slots| ==> slots[i] == None
    ensures Working(names, outcomes, size, size, current, {}, slots, [], [], tried)
  {
    BelowSize(size);
    assert Lost(outcomes, {}) == {};
  }

  lemma Came(names: seq<string>, outcomes: Outcomes, size: nat, index: nat, current: set<nat>, finished: set<nat>,
             slots: seq<Option<Url>>, order: seq<nat>, failed: seq<string>, tried: seq<int>, i: nat)
    requires Working(names, outcomes, size, index, current, finished, slots, order, failed, tried) && i in current
    ensures i < |names| == |slots| && slots[i] == None
    ensures var failed' := if outcomes(i).None? then failed + [names[i]] else failed;
            var order' := if outcomes(i).None? then order + [i] else order;
            var slots' := slots[i := outcomes(i)];
            var rest := current - {i};
            && |rest| == |current| - 1
            && if index < |names| then
                 Working(names, outcomes, size, index + 1, rest + {index}, finished + {i}, slots', order', failed',
                         tried + [index])
               else Working(names, outcomes, size, index, rest, finished + {i}, slots', order', failed', tried)
  {
    RecordLost(names, outcomes, finished, order, failed, i);
  }

  lemma Ended(names: seq<string>, outcomes: Outcomes, size: nat, index: nat, finished: set<nat>,
              slots: seq<Option<Url>>, order: seq<nat>, failed: seq<string>, tried: seq<int>)
    requires Working(names, outcomes, size, index, {}, finished, slots, order, failed, tried)
    ensures index == if size > 0 then |names| else 0
    ensures NamesLost(names, outcomes, Below(index), order, failed) && TriedOnce(tried, index)
    ensures forall i :: 0 <= i < |slots| ==> slots[i] == if size > 0 then outcomes(i) else None
  {
    assert finished == Below(index);
  }

  /** One upload comes back: its result goes to its own slot, or its name to the failures. */
  method FinishUpload(names: seq<string>, outcome: Option<Url>, currentIndex: nat, uploaded: array<Option<Url>>,
                      failed: seq<string>, ghost order: seq<nat>)
    returns (failed': seq<string>, ghost order': seq<nat>)
    requires currentIndex < uploaded.Length == |names| && uploaded[currentIndex] == None
    modifies uploaded
    ensures uploaded[..] == old(uploaded[..])[currentIndex := outcome]
    ensures failed' == if outcome.None? then failed + [names[currentIndex]] else failed
    ensures order' == if outcome.None? then order + [currentIndex] else order
  {
    failed', order' := failed, order;
    match outcome {
      case Some(url) =>
        uploaded[currentIndex] := Some(url);
      case None =>
        failed', order' := failed + [names[currentIndex]], order + [currentIndex];
        assert uploaded[..] == uploaded[..][currentIndex := None];
    }
  }

  /** Each worker takes its first index before any upload can come back. */
  method StartWorkers(size: nat) returns (index: nat, current: set<nat>, ghost tried: seq<int>)
    ensures index == size && current == Below(size) && TriedOnce(tried, size)
  {
    index, current, tried := 0, {}, [];
    while index < size
      invariant index <= size && current == Below(index) && TriedOnce(tried, index)
    {
      current, tried, index := current + {index}, tried + [index], index + 1;
    }
  }

  /** The workers. Whichever upload finishes next, its worker records the outcome and takes the next index. `tried`
      lists the indices in the order they are taken; `peak` is the most uploads under way at once. */
  method RunWorkers(names: seq<string>, outcomes: Outcomes, size: nat, uploaded: array<Option<Url>>)
    returns (failed: seq<string>, ghost order: seq<nat>, ghost tried: seq<int>, ghost peak: nat)
    requires uploaded.Length == |names| && size <= |names|
    requires forall i :: 0 <= i < |names| ==> uploaded[i] == None
    modifies uploaded
    ensures TriedOnce(tried, if size > 0 then |names| else 0)
    ensures peak <= size
    ensures forall i :: 0 <= i < |names| ==> uploaded[i] == if size > 0 then outcomes(i) else None
    ensures NamesLost(names, outcomes, Below(if size > 0 then |names| else 0), order, failed)
  {
    failed, order := [], [];
    var index: nat, current: set<nat>;
    index, current, tried := StartWorkers(size);
    ghost var finished: set<nat>, slots := {}, uploaded[..];
    Started(names, outcomes, size, current, slots, tried);
    peak := size;
    while current != {}
      invariant uploaded[..] == slots && peak == size
      invariant Working(names, outcomes, size, index, current, finished, slots, order, failed, tried)
      decreases |names| - index, |current|
    {
      var currentIndex :| currentIndex in current;
      Came(names, outcomes, size, index, current, finished, slots, order, failed, tried, currentIndex);
      assert uploaded[currentIndex] == slots[currentIndex];
      failed, order := FinishUpload(names, outcomes(currentIndex), currentIndex, uploaded, failed, order);
      finished, slots := finished + {currentIndex}, slots[currentIndex := outcomes(currentIndex)];
      current := current - {currentIndex};
      if index < |names| {
        current, tried, index := current + {index}, tried + [index], index + 1;
      }
      peak := Larger(peak, |current|);
    }
    Ended(names, outcomes, size, index, finished, slots, order, failed, tried);
    assert forall i :: 0 <= i < |names| ==> slots[i] == uploaded[i];
  }

  /** Uploads the files with at most `concurrency` workers. Every file is tried exactly once and, whatever the
      interleaving, the stored files come back in input order and the failed ones by name. It throws exactly when no
      file is stored. */
  method Upload(names: seq<string>, concurrency: int, outcomes: Outcomes)
    returns (r: Result<Uploads, UploadError>, ghost order: seq<nat>, ghost tried: seq<int>, ghost peak: nat)
    ensures TriedOnce(tried, if concurrency > 0 then |names| else 0)
    ensures concurrency >= 0 ==> peak <= concurrency
    ensures r == if concurrency < 0 then Failure(InvalidArrayLength)
                 else if concurrency == 0 || forall i: nat :: i < |names| ==> outcomes(i).None?
                 then Failure(AllUploadsFailed)
                 else Success(Uploads(Stored(outcomes, |names|), LostNames(names, order)))
    ensures concurrency > 0 ==> Lists(order, Lost(outcomes, Below(|names|)))
    ensures r.Success? ==>
              && |r.value.failed| == |order|
              && forall k :: 0 <= k < |order| ==> order[k] < |names| && r.value.failed[k] == names[order[k]]
    ensures r.Success? ==> r.value.data != [] && |r.value.data| + |r.value.failed| == |names|
  {
    order, tried, peak := [], [], 0;
    var size := if concurrency < |names| then concurrency else |names|;
    if size < 0 {
      return Failure(InvalidArrayLength), order, tried, peak;
    }
    var uploaded := new Option<Url>[|names|](_ => None);
    var failed: seq<string>;
    failed, order, tried, peak := RunWorkers(names, outcomes, size, uploaded);
    var uploadedFiltered := Filled(uploaded[..]);
    PoolResult(names, outcomes, size, uploaded[..], order, failed);
    if |uploadedFiltered| == 0 {
      return Failure(AllUploadsFailed), order, tried, peak;
    }
    return Success(Uploads(uploadedFiltered, failed)), order, tried, peak;
  }

  function LostNames(names: seq<string>, order: seq<nat>): seq<string> {
    seq(|order|, k requires 0 <= k < |order| => if order[k] < |names| then names[order[k]] else "")
  }

  lemma PoolResult(names: seq<string>, outcomes: Outcomes, size: nat, slots: seq<Option<Url>>, order: seq<nat>,
                   failed: seq<string>)
    requires |slots| == |names|
    requires forall i :: 0 <= i < |names| ==> slots[i] == if size > 0 then outcomes(i) else None
    requires NamesLost(names, outcomes, Below(if size > 0 then |names| else 0), order, failed)
    ensures failed == LostNames(names, order)
    ensures size > 0 ==> Filled(slots) == Stored(outcomes, |names|) && |Filled(slots)| + |failed| == |names|
    ensures size > 0 ==> (Filled(slots) == [] <==> forall i: nat :: i < |names| ==> outcomes(i).None?)
    ensures size == 0 ==> Filled(slots) == [] && order == []
    ensures |names| == 0 ==> Filled(slots) == [] && Lost(outcomes, Below(|names|)) == {}
  {
    if size > 0 {
      FilledIsStored(slots, outcomes);
      StoredOrLost(outcomes, |names|);
      NoneStored(outcomes, |names|);
    } else {
      FilledIsStored(slots, _ => None);
      NoneStored(_ => None, |names|);
      assert Lost(outcomes, {}) == {};
    }
  }
}
