/** Building a list by appending, line after line and file after file, the
    value each line yields, if it yields one (the loaders' `append` loops). */
module Seqs {
  import opened Wrappers

  /** The values `f` yields on `xs`, in order. */
  function Collect<A, B>(xs: seq<A>, f: A -> Option<B>): (ys: seq<B>)
    ensures |ys| <= |xs|
    decreases |xs|
  {
    if xs == [] then []
    else
      var init := Collect(xs[..|xs| - 1], f);
      match f(xs[|xs| - 1])
      case Some(y) => init + [y]
      case None => init
  }

  /** The values `f` yields on every file of `files`, file after file. */
  function CollectAll<A, B>(files: seq<seq<A>>, f: A -> Option<B>): seq<B>
    decreases |files|
  {
    if files == [] then []
    else CollectAll(files[..|files| - 1], f) + Collect(files[|files| - 1], f)
  }

  /** Collecting over two runs is collecting over the first, then the second. */
  lemma {:induction false} CollectConcat<A, B>(xs: seq<A>, ys: seq<A>, f: A -> Option<B>)
    ensures Collect(xs + ys, f) == Collect(xs, f) + Collect(ys, f)
    decreases |ys|
  {
    if ys == [] {
      assert xs + ys == xs;
    } else {
      var ys' := ys[..|ys| - 1];
      assert (xs + ys)[..|xs + ys| - 1] == xs + ys';
      assert (xs + ys)[|xs + ys| - 1] == ys[|ys| - 1];
      CollectConcat(xs, ys', f);
    }
  }

  /** Collecting over two runs of files is collecting over the first, then the second. */
  lemma {:induction false} CollectAllConcat<A, B>(fs: seq<seq<A>>, gs: seq<seq<A>>, f: A -> Option<B>)
    ensures CollectAll(fs + gs, f) == CollectAll(fs, f) + CollectAll(gs, f)
    decreases |gs|
  {
    if gs == [] {
      assert fs + gs == fs;
    } else {
      var gs' := gs[..|gs| - 1];
      assert (fs + gs)[..|fs + gs| - 1] == fs + gs';
      assert (fs + gs)[|fs + gs| - 1] == gs[|gs| - 1];
      CollectAllConcat(fs, gs', f);
    }
  }

  /** Appending one more element appends what it yields. */
  lemma CollectStep<A, B>(xs: seq<A>, j: nat, f: A -> Option<B>)
    requires j < |xs|
    ensures Collect(xs[..j + 1], f) == Collect(xs[..j], f) + (if f(xs[j]).Some? then [f(xs[j]).value] else [])
  {
    assert xs[..j + 1][..j] == xs[..j];
  }

  /** The same, after a prefix already collected. */
  lemma CollectAppend<A, B>(done: seq<B>, xs: seq<A>, j: nat, f: A -> Option<B>)
    requires j < |xs|
    ensures f(xs[j]).None? ==> done + Collect(xs[..j + 1], f) == done + Collect(xs[..j], f)
    ensures f(xs[j]).Some? ==> done + Collect(xs[..j + 1], f) == done + Collect(xs[..j], f) + [f(xs[j]).value]
  {
    CollectStep(xs, j, f);
    if f(xs[j]).None? {
      assert Collect(xs[..j], f) + [] == Collect(xs[..j], f);
    }
  }

  /** Appending one more file appends what it yields. */
  lemma CollectAllStep<A, B>(files: seq<seq<A>>, i: nat, f: A -> Option<B>)
    requires i < |files|
    ensures CollectAll(files[..i + 1], f) == CollectAll(files[..i], f) + Collect(files[i], f)
  {
    assert files[..i + 1][..i] == files[..i];
  }

  /** Every collected value is what `f` yields on some element. */
  lemma {:induction false} CollectSound<A, B>(xs: seq<A>, f: A -> Option<B>, k: nat)
    requires k < |Collect(xs, f)|
    ensures exists j :: 0 <= j < |xs| && f(xs[j]) == Some(Collect(xs, f)[k])
    decreases |xs|
  {
    var xs' := xs[..|xs| - 1];
    if k < |Collect(xs', f)| {
      CollectSound(xs', f, k);
      var j :| 0 <= j < |xs'| && f(xs'[j]) == Some(Collect(xs', f)[k]);
      assert xs'[j] == xs[j];
    }
  }

  /** Every value `f` yields on an element is collected. */
  lemma {:induction false} CollectComplete<A, B>(xs: seq<A>, f: A -> Option<B>, j: nat)
    requires j < |xs| && f(xs[j]).Some?
    ensures f(xs[j]).value in Collect(xs, f)
    decreases |xs|
  {
    var xs' := xs[..|xs| - 1];
    if j < |xs| - 1 {
      CollectComplete(xs', f, j);
      assert xs'[j] == xs[j];
    }
  }

  /** A property every yielded value has is had by every collected value. */
  lemma {:induction false} CollectKeeps<A, B>(xs: seq<A>, f: A -> Option<B>, p: B -> bool)
    requires forall x :: f(x).Some? ==> p(f(x).value)
    ensures forall y :: y in Collect(xs, f) ==> p(y)
    decreases |xs|
  {
    if xs != [] {
      CollectKeeps(xs[..|xs| - 1], f, p);
    }
  }

  /** The same over files. */
  lemma {:induction false} CollectAllKeeps<A, B>(files: seq<seq<A>>, f: A -> Option<B>, p: B -> bool)
    requires forall x :: f(x).Some? ==> p(f(x).value)
    ensures forall y :: y in CollectAll(files, f) ==> p(y)
    decreases |files|
  {
    if files != [] {
      CollectAllKeeps(files[..|files| - 1], f, p);
      CollectKeeps(files[|files| - 1], f, p);
    }
  }
}
