/** The byte-capped export of sources and the eviction of cached ones. */
module Export {
  import opened Picks

  /** A file to export: whether a label names it, and whether it lies in the directories or imports of a label. */
  datatype File = File(rel: string, size: nat, labelled: bool, near: bool)

  function Bytes(files: seq<File>): nat {
    if files == [] then 0 else Bytes(files[..|files| - 1]) + files[|files| - 1].size
  }

  /** The labelled files, or the others, in order. */
  function Part(files: seq<File>, labelled: bool): seq<File> {
    if files == [] then []
    else
      var last := files[|files| - 1];
      Part(files[..|files| - 1], labelled) + if last.labelled == labelled then [last] else []
  }

  lemma {:induction false} PartHas(files: seq<File>, labelled: bool)
    ensures forall f :: f in Part(files, labelled) <==> f in files && f.labelled == labelled
  {
    if files != [] {
      PartHas(files[..|files| - 1], labelled);
      assert files == files[..|files| - 1] + [files[|files| - 1]];
    }
  }

  /** An oversized scope is narrowed to what lies near a label; labelled files always stay. */
  function Scope(files: seq<File>, cap: nat): seq<File> {
    if Bytes(files) > cap then Near(files) else files
  }

  function Near(files: seq<File>): seq<File> {
    if files == [] then []
    else
      var last := files[|files| - 1];
      Near(files[..|files| - 1]) + if last.labelled || last.near then [last] else []
  }

  lemma OneMore(files: seq<File>, f: File)
    ensures Bytes(files + [f]) == Bytes(files) + f.size
    ensures Part(files + [f], true) == Part(files, true) + if f.labelled then [f] else []
  {
    assert (files + [f])[..|files|] == files;
  }

  lemma {:induction false} NearKeepsLabelled(files: seq<File>)
    ensures Part(Near(files), true) == Part(files, true)
  {
    if files != [] {
      var front, last := files[..|files| - 1], files[|files| - 1];
      NearKeepsLabelled(front);
      assert files == front + [last];
      OneMore(front, last);
      OneMore(Near(front), last);
      assert Near(front) + [] == Near(front);
    }
  }

  /** Narrowing keeps exactly the files that are labelled or near a label, in order. */
  lemma {:induction false} NearPicks(files: seq<File>)
    ensures Picked((f: File) => f.labelled || f.near, files, Near(files))
  {
    var p := (f: File) => f.labelled || f.near;
    if files != [] {
      var front, last := files[..|files| - 1], files[|files| - 1];
      NearPicks(front);
      assert files == front + [last];
      PickOneMore(p, front, Near(front), last);
    }
  }

  lemma ScopeKeepsLabelled(files: seq<File>, cap: nat)
    ensures Part(Scope(files, cap), true) == Part(files, true)
  {
    NearKeepsLabelled(files);
  }

  /** A file is left out only when it is context that no longer fits. */
  ghost predicate LeftOut(files: seq<File>, copied: seq<File>, cap: nat) {
    forall f | f in files && f !in copied :: !f.labelled && Bytes(copied) + f.size > cap
  }

  /** The state of the copying after these files. */
  ghost predicate Copying(files: seq<File>, copied: seq<File>, capHit: bool, cap: nat) {
    && Part(copied, true) == Part(files, true) && LeftOut(files, copied, cap)
    && (capHit <==> Bytes(files) > cap) && (!capHit ==> copied == files)
    && Bytes(copied) <= Bytes(files) && (forall f | f in copied :: f in files)
    && (Bytes(copied) <= cap || copied == Part(copied, true))
  }

  lemma CopyingGoesOn(files: seq<File>, copied: seq<File>, capHit: bool, cap: nat, file: File)
    requires Copying(files, copied, capHit, cap)
    requires file.labelled ==> copied == Part(copied, true)
    ensures var over := Bytes(copied) + file.size > cap;
            Copying(files + [file], if over && !file.labelled then copied else copied + [file], capHit || over, cap)
  {
    OneMore(files, file);
    OneMore(copied, file);
    hide Bytes, Part;
    assert Part(files, true) + [] == Part(files, true);
  }

  lemma {:induction false} AllLabelled(files: seq<File>)
    requires forall f | f in files :: f.labelled
    ensures Part(files, true) == files
  {
    if files != [] {
      assert files == files[..|files| - 1] + [files[|files| - 1]];
      AllLabelled(files[..|files| - 1]);
    }
  }

  /** The order of copying: labelled files first. */
  function Ordered(files: seq<File>): seq<File> { Part(files, true) + Part(files, false) }

  lemma LabelledComeFirst(files: seq<File>, n: nat)
    requires n < |Ordered(files)| && Ordered(files)[n].labelled
    ensures forall f | f in Ordered(files)[..n] :: f.labelled
  {
    var labelled, context := Part(files, true), Part(files, false);
    PartHas(files, true);
    PartHas(files, false);
    forall i | |labelled| <= i < |Ordered(files)| ensures !Ordered(files)[i].labelled {
      assert Ordered(files)[i] == context[i - |labelled|] && context[i - |labelled|] in context;
    }
    assert Ordered(files)[..n] == labelled[..n];
    forall f | f in Ordered(files)[..n] ensures f.labelled {
      assert f in labelled;
    }
  }

  lemma PartOneMore(files: seq<File>, f: File, labelled: bool)
    ensures Part(files + [f], labelled) ==
            if f.labelled == labelled then Part(files, labelled) + [f] else Part(files, labelled)
  {
    assert (files + [f])[..|files|] == files;
    assert Part(files, labelled) + [] == Part(files, labelled);
  }

  lemma NothingCopied(cap: nat)
    ensures Copying([], [], false, cap) && Bytes([]) == 0 && Part([], true) == Part([], false) == []
  {
  }

  lemma {:induction false} OrderedBytes(files: seq<File>)
    ensures Bytes(Part(files, true)) + Bytes(Part(files, false)) == Bytes(files)
  {
    hide Bytes, Part, Copying;
    if files == [] {
      NothingCopied(0);
    } else {
      var front, last := files[..|files| - 1], files[|files| - 1];
      OrderedBytes(front);
      OrderedBytesStep(front, last);
      assert files == front + [last];
    }
  }

  lemma OrderedBytesStep(files: seq<File>, f: File)
    requires Bytes(Part(files, true)) + Bytes(Part(files, false)) == Bytes(files)
    ensures Bytes(Part(files + [f], true)) + Bytes(Part(files + [f], false)) == Bytes(files + [f])
  {
    hide Bytes, Part;
    PartOneMore(files, f, true);
    PartOneMore(files, f, false);
    BytesOneMore(files, f);
    BytesOneMore(Part(files, true), f);
    BytesOneMore(Part(files, false), f);
  }

  lemma BytesOneMore(files: seq<File>, f: File)
    ensures Bytes(files + [f]) == Bytes(files) + f.size
  {
    assert (files + [f])[..|files|] == files;
  }

  lemma {:induction false} BytesAppend(a: seq<File>, b: seq<File>)
    ensures Bytes(a + b) == Bytes(a) + Bytes(b)
    decreases |b|
  {
    if b == [] {
      assert a + b == a;
    } else {
      assert (a + b)[..|a + b| - 1] == a + b[..|b| - 1];
      BytesAppend(a, b[..|b| - 1]);
    }
  }

  lemma {:induction false} OrderedFiles(files: seq<File>)
    ensures multiset(Part(files, true)) + multiset(Part(files, false)) == multiset(files)
  {
    if files == [] {
    } else {
      hide Part;
      var front, last := files[..|files| - 1], files[|files| - 1];
      OrderedFiles(front);
      assert files == front + [last];
      PartOneMore(front, last, true);
      PartOneMore(front, last, false);
    }
  }

  lemma {:induction false} OrderedLabelled(a: seq<File>, b: seq<File>)
    requires (forall f | f in a :: f.labelled) && forall f | f in b :: !f.labelled
    ensures Part(a + b, true) == a
    decreases |b|
  {
    if b == [] {
      assert a + b == a;
      AllLabelled(a);
    } else {
      assert b[|b| - 1] in b;
      assert (a + b)[..|a + b| - 1] == a + b[..|b| - 1];
      OrderedLabelled(a, b[..|b| - 1]);
    }
  }

  /** The files, given by path, are copied labelled ones first. Every labelled file is copied, the total stays within
      the
      cap or is the labelled bytes alone, and the cap is hit exactly when the scope does not fit. */
  method ExportSources(files: seq<File>, cap: nat) returns (copied: seq<File>, bytes: nat, capHit: bool)
    ensures bytes == Bytes(copied) && (bytes <= cap || bytes == Bytes(Part(files, true)))
    ensures Part(copied, true) == Part(files, true) && LeftOut(Scope(files, cap), copied, cap)
    ensures capHit <==> Bytes(Scope(files, cap)) > cap
    ensures !capHit ==> multiset(copied) == multiset(Scope(files, cap))
  {
    hide Copying, LeftOut, Part, Bytes, Near, Ordered, Scope;
    var scope := Scope(files, cap);
    ScopeKeepsLabelled(files, cap);
    var ordered := Ordered(scope);
    copied, bytes, capHit := [], 0, false;
    assert ordered[..0] == [];
    NothingCopied(cap);
    for n := 0 to |ordered|
      invariant bytes == Bytes(copied) && Copying(ordered[..n], copied, capHit, cap)
    {
      var file := ordered[n];
      assert ordered[..n + 1] == ordered[..n] + [file];
      if file.labelled {
        OnlyLabelledYet(scope, n, copied, capHit, cap);
      }
      CopyingGoesOn(ordered[..n], copied, capHit, cap, file);
      BytesOneMore(copied, file);
      if bytes + file.size > cap {
        capHit := true;
        if !file.labelled {
          continue;
        }
      }
      copied := copied + [file];
      bytes := bytes + file.size;
    }
    assert ordered[..|ordered|] == ordered;
    CopyingEnds(scope, copied, capHit, cap);
  }

  lemma OnlyLabelledYet(scope: seq<File>, n: nat, copied: seq<File>, capHit: bool, cap: nat)
    requires n < |Ordered(scope)| && Ordered(scope)[n].labelled && Copying(Ordered(scope)[..n], copied, capHit, cap)
    ensures copied == Part(copied, true)
  {
    hide Bytes, Part, Ordered, LeftOut;
    LabelledComeFirst(scope, n);
    AllLabelled(copied);
  }

  lemma CopyingEnds(scope: seq<File>, copied: seq<File>, capHit: bool, cap: nat)
    requires Copying(Ordered(scope), copied, capHit, cap)
    ensures Part(copied, true) == Part(scope, true) && LeftOut(scope, copied, cap)
    ensures Bytes(copied) <= cap || Bytes(copied) == Bytes(Part(scope, true))
    ensures capHit <==> Bytes(scope) > cap
    ensures !capHit ==> multiset(copied) == multiset(scope)
  {
    hide Bytes, Part;
    var labelled, context := Part(scope, true), Part(scope, false);
    OrderedBytes(scope);
    BytesAppend(labelled, context);
    OrderedFiles(scope);
    PartHas(scope, true);
    PartHas(scope, false);
    OrderedLabelled(labelled, context);
    assert multiset(Ordered(scope)) == multiset(labelled) + multiset(context);
    forall f | f in scope ensures f in Ordered(scope) {
      assert f in multiset(scope);
    }
  }

  // ----- the source cache -----

  /** Cached trees, oldest first. */
  function Held(sizes: seq<nat>): nat {
    if sizes == [] then 0 else sizes[0] + Held(sizes[1..])
  }

  /** Exactly the shortest run of oldest trees goes whose removal brings the rest within the limit. */
  method PrepareCache(sizes: seq<nat>, limit: nat) returns (evicted: nat, total: nat)
    ensures evicted <= |sizes| && total == Held(sizes[evicted..]) && total <= limit
    ensures forall k | 0 <= k < evicted :: Held(sizes[k..]) > limit
  {
    assert sizes[0..] == sizes;
    evicted, total := 0, Held(sizes);
    while evicted < |sizes| && total > limit
      invariant evicted <= |sizes| && total == Held(sizes[evicted..])
      invariant forall k | 0 <= k < evicted :: Held(sizes[k..]) > limit
    {
      assert sizes[evicted..][1..] == sizes[evicted + 1..];
      total := total - sizes[evicted];
      evicted := evicted + 1;
    }
  }
}
