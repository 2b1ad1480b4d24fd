/**
 The tree of block index entries: ancestor chains, the fork search of Reorganize, and the
 main-chain links. Block index pointers are block hashes; `pprev`, height and trust never change
 once an entry exists, while `pnext` is the separate map `next` (absent means NULL).
 */
module BlockTree {
  import opened Positional
  import opened Wrappers
  import opened Sequences

  datatype Node = Node(pprev: Option<nat>, height: nat, trust: nat)

  type Tree = map<nat, Node>

  ghost predicate NodeOk(t: Tree, b: nat)
    requires b in t
  {
    && t[b].pprev.Some?
    && t[b].pprev.value in t
    && t[b].height == t[t[b].pprev.value].height + 1
    && t[b].trust > t[t[b].pprev.value].trust
  }

  /** One root, heights count from it, and chain trust strictly increases away from it. */
  ghost predicate TreeOk(t: Tree, root: nat) {
    && root in t && t[root].pprev.None? && t[root].height == 0
    && forall b :: b in t && b != root ==> NodeOk(t, b)
  }

  /** The blocks from the root to `b`. */
  ghost function Chain(t: Tree, root: nat, b: nat): seq<nat>
    requires TreeOk(t, root) && b in t
    decreases t[b].height
  {
    if b == root then [b]
    else
      assert NodeOk(t, b);
      Chain(t, root, t[b].pprev.value) + [b]
  }

  lemma {:induction false} ChainShape(t: Tree, root: nat, b: nat)
    requires TreeOk(t, root) && b in t
    ensures |Chain(t, root, b)| == t[b].height + 1
    ensures Chain(t, root, b)[0] == root && Chain(t, root, b)[t[b].height] == b
    ensures forall i :: 0 <= i <= t[b].height ==>
      Chain(t, root, b)[i] in t && t[Chain(t, root, b)[i]].height == i
    decreases t[b].height
  {
    if b != root {
      assert NodeOk(t, b);
      ChainShape(t, root, t[b].pprev.value);
    }
  }

  lemma {:induction false} ChainPrefix(t: Tree, root: nat, b: nat, i: nat)
    requires TreeOk(t, root) && b in t && i <= t[b].height
    ensures |Chain(t, root, b)| == t[b].height + 1 && Chain(t, root, b)[i] in t
    ensures Chain(t, root, Chain(t, root, b)[i]) == Chain(t, root, b)[..i + 1]
    decreases t[b].height
  {
    ChainShape(t, root, b);
    if i == t[b].height {
      assert Chain(t, root, b)[..i + 1] == Chain(t, root, b);
    } else {
      assert NodeOk(t, b);
      var p := t[b].pprev.value;
      ChainPrefix(t, root, p, i);
      assert Chain(t, root, b)[..i + 1] == Chain(t, root, p)[..i + 1];
    }
  }

  /** `a` is `b` or one of its ancestors. */
  ghost predicate IsAncestor(t: Tree, root: nat, a: nat, b: nat)
    requires TreeOk(t, root)
  {
    a in t && b in t && a in Chain(t, root, b)
  }

  lemma AncestorAt(t: Tree, root: nat, a: nat, b: nat)
    requires TreeOk(t, root) && IsAncestor(t, root, a, b)
    ensures t[a].height <= t[b].height
    ensures |Chain(t, root, b)| == t[b].height + 1
    ensures Chain(t, root, b)[t[a].height] == a
    ensures Chain(t, root, a) == Chain(t, root, b)[..t[a].height + 1]
  {
    ChainShape(t, root, b);
    var i :| 0 <= i <= t[b].height && Chain(t, root, b)[i] == a;
    ChainPrefix(t, root, b, i);
  }

  lemma AncestorSelf(t: Tree, root: nat, b: nat)
    requires TreeOk(t, root) && b in t
    ensures IsAncestor(t, root, b, b) && IsAncestor(t, root, root, b)
  {
    ChainShape(t, root, b);
  }

  /** A proper ancestor is an ancestor of the parent. */
  lemma AncestorOfParent(t: Tree, root: nat, a: nat, b: nat)
    requires TreeOk(t, root) && IsAncestor(t, root, a, b) && a != b
    ensures b != root && NodeOk(t, b)
    ensures IsAncestor(t, root, a, t[b].pprev.value)
    ensures t[a].height < t[b].height
  {
    ChainShape(t, root, b);
    AncestorAt(t, root, a, b);
    AncestorSelf(t, root, b);
    AncestorAt(t, root, b, b);
  }

  lemma ParentIsAncestor(t: Tree, root: nat, a: nat, b: nat)
    requires TreeOk(t, root) && IsAncestor(t, root, a, b) && a != root
    ensures NodeOk(t, a) && IsAncestor(t, root, t[a].pprev.value, b)
  {
    AncestorAt(t, root, a, b);
    var p := t[a].pprev.value;
    ChainShape(t, root, p);
    assert Chain(t, root, a)[t[p].height] == p;
  }

  /** Two ancestors of one block at the same height are the same block. */
  lemma SameHeightSameAncestor(t: Tree, root: nat, a: nat, c: nat, b: nat)
    requires TreeOk(t, root) && IsAncestor(t, root, a, b) && IsAncestor(t, root, c, b) && t[a].height == t[c].height
    ensures a == c
  {
    AncestorAt(t, root, a, b);
    AncestorAt(t, root, c, b);
  }

  /** Trust never decreases from an ancestor to a descendant, and strictly increases to a proper one. */
  lemma {:induction false} TrustGrows(t: Tree, root: nat, a: nat, b: nat)
    requires TreeOk(t, root) && IsAncestor(t, root, a, b)
    ensures t[a].trust <= t[b].trust && (a != b ==> t[a].trust < t[b].trust)
    decreases t[b].height
  {
    if a != b {
      AncestorOfParent(t, root, a, b);
      TrustGrows(t, root, a, t[b].pprev.value);
    }
  }

  /** Adding an entry leaves every existing chain as it was. */
  lemma {:induction false} ChainStable(t: Tree, root: nat, n: nat, node: Node, b: nat)
    requires TreeOk(t, root) && n !in t && TreeOk(t[n := node], root) && b in t
    ensures Chain(t[n := node], root, b) == Chain(t, root, b)
    decreases t[b].height
  {
    if b != root {
      assert NodeOk(t, b) && NodeOk(t[n := node], b);
      ChainStable(t, root, n, node, t[b].pprev.value);
    }
  }

  // ---------------------------------------------------------------- the fork

  /** `f` is the lowest common ancestor: it is one, and every common ancestor is above it. */
  ghost predicate IsFork(t: Tree, root: nat, f: nat, a: nat, b: nat)
    requires TreeOk(t, root)
  {
    && IsAncestor(t, root, f, a) && IsAncestor(t, root, f, b)
    && forall x :: IsAncestor(t, root, x, a) && IsAncestor(t, root, x, b) ==> IsAncestor(t, root, x, f)
  }

  /** What both walks of the fork search keep: every common ancestor is still ahead of both. */
  ghost predicate ForkInv(t: Tree, root: nat, best: nat, new_: nat, pfork: nat, plonger: nat)
    requires TreeOk(t, root)
  {
    && IsAncestor(t, root, pfork, best) && IsAncestor(t, root, plonger, new_)
    && forall x :: IsAncestor(t, root, x, best) && IsAncestor(t, root, x, new_) ==>
         IsAncestor(t, root, x, pfork) && IsAncestor(t, root, x, plonger)
  }

  lemma ForkStepLonger(t: Tree, root: nat, best: nat, new_: nat, pfork: nat, plonger: nat)
    requires TreeOk(t, root) && ForkInv(t, root, best, new_, pfork, plonger)
    requires t[plonger].height > t[pfork].height
    ensures plonger != root && NodeOk(t, plonger)
    ensures ForkInv(t, root, best, new_, pfork, t[plonger].pprev.value)
  {
    ParentIsAncestor(t, root, plonger, new_);
    forall x | IsAncestor(t, root, x, best) && IsAncestor(t, root, x, new_)
      ensures IsAncestor(t, root, x, t[plonger].pprev.value)
    {
      AncestorAt(t, root, x, pfork);
      AncestorOfParent(t, root, x, plonger);
    }
  }

  lemma ForkStepBest(t: Tree, root: nat, best: nat, new_: nat, pfork: nat, plonger: nat)
    requires TreeOk(t, root) && ForkInv(t, root, best, new_, pfork, plonger)
    requires t[plonger].height <= t[pfork].height && plonger != pfork
    ensures pfork != root && NodeOk(t, pfork)
    ensures ForkInv(t, root, best, new_, t[pfork].pprev.value, plonger)
  {
    assert plonger != root ==> NodeOk(t, plonger);
    ParentIsAncestor(t, root, pfork, best);
    forall x | IsAncestor(t, root, x, best) && IsAncestor(t, root, x, new_)
      ensures IsAncestor(t, root, x, t[pfork].pprev.value)
    {
      AncestorAt(t, root, x, plonger);
      if x == pfork {
        AncestorSelf(t, root, plonger);
        SameHeightSameAncestor(t, root, x, plonger, plonger);
      }
      AncestorOfParent(t, root, x, pfork);
    }
  }

  /** The fork search at the start of Reorganize; neither walk can run off the root. */
  method FindFork(t: Tree, root: nat, best: nat, new_: nat) returns (fork: nat)
    requires TreeOk(t, root) && best in t && new_ in t
    ensures IsFork(t, root, fork, best, new_)
  {
    fork := best;
    var plonger := new_;
    AncestorSelf(t, root, best);
    AncestorSelf(t, root, new_);
    while fork != plonger
      invariant ForkInv(t, root, best, new_, fork, plonger)
      decreases t[fork].height + t[plonger].height
    {
      while t[plonger].height > t[fork].height
        invariant ForkInv(t, root, best, new_, fork, plonger)
        decreases t[plonger].height
      {
        ForkStepLonger(t, root, best, new_, fork, plonger);
        plonger := t[plonger].pprev.value;
      }
      if fork == plonger {
        break;
      }
      ForkStepBest(t, root, best, new_, fork, plonger);
      fork := t[fork].pprev.value;
    }
  }

  function Reversed(s: seq<nat>): (r: seq<nat>)
    ensures |r| == |s| && forall i :: 0 <= i < |s| ==> r[i] == s[|s| - 1 - i]
  {
    seq(|s|, i requires 0 <= i < |s| => s[|s| - 1 - i])
  }

  lemma ReversedStep(c: seq<nat>, h: nat)
    requires h < |c|
    ensures Reversed(c[h..]) == Reversed(c[h + 1..]) + [c[h]]
  {
  }

  /** Walking `pprev` from `b` down to its ancestor `fork` lists the chain above the fork backwards. */
  method WalkDown(t: Tree, root: nat, b: nat, fork: nat) returns (v: seq<nat>)
    requires TreeOk(t, root) && IsAncestor(t, root, fork, b)
    ensures t[fork].height < |Chain(t, root, b)|
    ensures v == Reversed(Chain(t, root, b)[t[fork].height + 1..])
  {
    hide Chain;
    v := [];
    var p := b;
    AncestorSelf(t, root, b);
    AncestorAt(t, root, fork, b);
    ghost var c := Chain(t, root, b);
    ChainShape(t, root, b);
    while p != fork
      invariant IsAncestor(t, root, fork, p) && IsAncestor(t, root, p, b)
      invariant t[p].height < |c| && v == Reversed(c[t[p].height + 1..])
      decreases t[p].height
    {
      AncestorAt(t, root, p, b);
      AncestorOfParent(t, root, fork, p);
      ParentIsAncestor(t, root, p, b);
      ReversedStep(c, t[p].height);
      v := v + [p];
      p := t[p].pprev.value;
    }
  }

  lemma MutualAncestors(t: Tree, root: nat, a: nat, b: nat)
    requires TreeOk(t, root) && IsAncestor(t, root, a, b) && IsAncestor(t, root, b, a)
    ensures a == b
  {
    AncestorAt(t, root, a, b);
    AncestorAt(t, root, b, a);
    AncestorSelf(t, root, b);
    SameHeightSameAncestor(t, root, a, b, b);
  }

  /** There is one lowest common ancestor. */
  lemma ForkUnique(t: Tree, root: nat, f: nat, g: nat, a: nat, b: nat)
    requires TreeOk(t, root) && IsFork(t, root, f, a, b) && IsFork(t, root, g, a, b)
    ensures f == g
  {
    MutualAncestors(t, root, f, g);
  }

  /** There is one first block to exceed the best. */
  lemma FirstUnique(t: Tree, root: nat, m: nat, n: nat, best: nat, b: nat)
    requires TreeOk(t, root) && best in t
    requires IsFirstToExceed(t, root, m, best, b) && IsFirstToExceed(t, root, n, best, b)
    ensures m == n
  {
    AncestorSelf(t, root, m);
    AncestorSelf(t, root, n);
    MutualAncestors(t, root, m, n);
  }

  /** `mid` is the first block on the branch of `b` whose trust exceeds that of `best`. */
  ghost predicate IsFirstToExceed(t: Tree, root: nat, mid: nat, best: nat, b: nat)
    requires TreeOk(t, root) && best in t
  {
    && IsAncestor(t, root, mid, b)
    && forall x :: IsAncestor(t, root, x, b) ==> (t[x].trust > t[best].trust <==> IsAncestor(t, root, mid, x))
  }

  /** The loop of SetBestChain that postpones reconnects: the blocks above `mid` are left for later. */
  method FindIntermediate(t: Tree, root: nat, best: nat, b: nat) returns (mid: nat, later: seq<nat>)
    requires TreeOk(t, root) && best in t && b in t && t[b].trust > t[best].trust
    ensures IsFirstToExceed(t, root, mid, best, b) && IsAncestor(t, root, mid, b)
    ensures t[mid].height < |Chain(t, root, b)| && later == Reversed(Chain(t, root, b)[t[mid].height + 1..])
  {
    hide Chain;
    mid, later := b, [];
    ghost var c := Chain(t, root, b);
    ChainShape(t, root, b);
    AncestorSelf(t, root, b);
    while t[mid].pprev.Some? && t[t[mid].pprev.value].trust > t[best].trust
      invariant IsAncestor(t, root, mid, b) && t[mid].trust > t[best].trust
      invariant t[mid].height < |c| && later == Reversed(c[t[mid].height + 1..])
      decreases t[mid].height
    {
      AncestorAt(t, root, mid, b);
      ParentIsAncestor(t, root, mid, b);
      ReversedStep(c, t[mid].height);
      later := later + [mid];
      mid := t[mid].pprev.value;
    }
    forall x | IsAncestor(t, root, x, b)
      ensures t[x].trust > t[best].trust <==> IsAncestor(t, root, mid, x)
    {
      ExceedsFrom(t, root, mid, best, b, x);
    }
  }

  /** Two ancestors of one block are related. */
  lemma AncestorsRelated(t: Tree, root: nat, a: nat, c: nat, b: nat)
    requires TreeOk(t, root) && IsAncestor(t, root, a, b) && IsAncestor(t, root, c, b) && t[a].height <= t[c].height
    ensures IsAncestor(t, root, a, c)
  {
    AncestorAt(t, root, a, b);
    AncestorAt(t, root, c, b);
    assert Chain(t, root, c)[t[a].height] == a;
  }

  lemma ExceedsFrom(t: Tree, root: nat, mid: nat, best: nat, b: nat, x: nat)
    requires TreeOk(t, root) && best in t && IsAncestor(t, root, mid, b) && IsAncestor(t, root, x, b)
    requires t[mid].trust > t[best].trust
    requires mid != root && NodeOk(t, mid) ==> t[t[mid].pprev.value].trust <= t[best].trust
    ensures t[x].trust > t[best].trust <==> IsAncestor(t, root, mid, x)
  {
    if t[mid].height <= t[x].height {
      AncestorsRelated(t, root, mid, x, b);
      TrustGrows(t, root, mid, x);
    } else {
      AncestorsRelated(t, root, x, mid, b);
      AncestorOfParent(t, root, x, mid);
      TrustGrows(t, root, x, t[mid].pprev.value);
      if IsAncestor(t, root, mid, x) {
        AncestorAt(t, root, mid, x);
      }
    }
  }

  // ---------------------------------------------------------------- links

  function ElementsOf(s: seq<nat>): set<nat> {
    set b | b in s
  }

  /** `next` links exactly the consecutive blocks of `c`. */
  ghost predicate Links(next: map<nat, nat>, c: seq<nat>)
    requires |c| > 0
  {
    && next.Keys == ElementsOf(c[..|c| - 1])
    && forall i :: 0 <= i < |c| - 1 ==> next[c[i]] == c[i + 1]
  }

  lemma ChainDistinct(t: Tree, root: nat, b: nat)
    requires TreeOk(t, root) && b in t
    ensures NoDuplicates(Chain(t, root, b))
  {
    ChainShape(t, root, b);
  }

  lemma LinkOne(next: map<nat, nat>, c: seq<nat>, b: nat)
    requires |c| > 0 && NoDuplicates(c) && Links(next, c)
    ensures Links(next[c[|c| - 1] := b], c + [b])
  {
    assert (c + [b])[..|c|] == c;
    assert c == c[..|c| - 1] + [c[|c| - 1]];
  }

  lemma UnlinkOne(next: map<nat, nat>, c: seq<nat>)
    requires |c| > 1 && NoDuplicates(c) && Links(next, c)
    ensures Links(next - {c[|c| - 2]}, c[..|c| - 1])
  {
    var init := c[..|c| - 1];
    assert init == init[..|init| - 1] + [c[|c| - 2]];
  }

  /** The pointer updates of Reorganize for the disconnected branch. */
  method UnlinkBranch(t: Tree, root: nat, next: map<nat, nat>, best: nat, ghost k: nat, down: seq<nat>)
    returns (next': map<nat, nat>)
    requires TreeOk(t, root) && best in t && Links(next, Chain(t, root, best))
    requires 1 <= k <= |Chain(t, root, best)| && down == Reversed(Chain(t, root, best)[k..])
    ensures Links(next', Chain(t, root, best)[..k])
  {
    hide Chain, Links;
    next' := next;
    ghost var c := Chain(t, root, best);
    ChainDistinct(t, root, best);
    assert c[..|c|] == c;
    for j := 0 to |down|
      invariant Links(next', c[..|c| - j])
    {
      var b := down[j];
      ghost var now := c[..|c| - j];
      assert b == now[|now| - 1];
      ParentInChain(t, root, best, |c| - j - 1);
      assert now[..|now| - 1] == c[..|c| - (j + 1)];
      UnlinkOne(next', now);
      if t[b].pprev.Some? {
        next' := next' - {t[b].pprev.value};
      }
    }
  }

  /** The pointer updates of Reorganize for the connected branch. */
  method LinkBranch(t: Tree, root: nat, next: map<nat, nat>, new_: nat, ghost k: nat, up: seq<nat>)
    returns (next': map<nat, nat>)
    requires TreeOk(t, root) && new_ in t
    requires 1 <= k <= |Chain(t, root, new_)| && up == Chain(t, root, new_)[k..]
    requires Links(next, Chain(t, root, new_)[..k])
    ensures Links(next', Chain(t, root, new_))
  {
    hide Chain, Links;
    next' := next;
    ghost var c := Chain(t, root, new_);
    ChainDistinct(t, root, new_);
    for j := 0 to |up|
      invariant Links(next', c[..k + j])
    {
      var b := up[j];
      ghost var now := c[..k + j];
      assert b == c[k + j];
      ParentInChain(t, root, new_, k + j);
      assert now + [b] == c[..k + (j + 1)];
      LinkOne(next', now, b);
      if t[b].pprev.Some? {
        next' := next'[t[b].pprev.value := b];
      }
    }
    assert c[..|c|] == c;
  }

  lemma ParentInChain(t: Tree, root: nat, b: nat, i: nat)
    requires TreeOk(t, root) && b in t && 1 <= i < |Chain(t, root, b)|
    ensures Chain(t, root, b)[i] in t
    ensures t[Chain(t, root, b)[i]].pprev == Some(Chain(t, root, b)[i - 1])
  {
    ChainShape(t, root, b);
    ChainPrefix(t, root, b, i);
    var x := Chain(t, root, b)[i];
    assert x != root ==> NodeOk(t, x);
    ChainShape(t, root, t[x].pprev.value);
    assert Chain(t, root, x) == Chain(t, root, t[x].pprev.value) + [x];
  }

  /** CBlockIndex::IsInMainChain. */
  predicate InMainChain(next: map<nat, nat>, best: nat, b: nat) {
    b in next || b == best
  }

  /** With the links of the best chain, IsInMainChain holds exactly of the best block's ancestors and itself. */
  lemma MainChainIsAncestry(t: Tree, root: nat, next: map<nat, nat>, best: nat, b: nat)
    requires TreeOk(t, root) && best in t && b in t && Links(next, Chain(t, root, best))
    ensures InMainChain(next, best, b) <==> IsAncestor(t, root, b, best)
  {
    var c := Chain(t, root, best);
    ChainShape(t, root, best);
    if b in c {
      var i :| 0 <= i < |c| && c[i] == b;
      if i < |c| - 1 {
        assert c[i] in next;
      }
    }
  }

  /**
   If the links only reach an ancestor `tip` of the best block, IsInMainChain describes the best block's
   ancestry exactly when that ancestor is the best block itself.
   */
  lemma LinksFitIffTipIsBest(t: Tree, root: nat, next: map<nat, nat>, tip: nat, best: nat)
    requires TreeOk(t, root) && IsAncestor(t, root, tip, best) && Links(next, Chain(t, root, tip))
    ensures (forall b :: b in t ==> (InMainChain(next, best, b) <==> IsAncestor(t, root, b, best))) <==> tip == best
  {
    if tip == best {
      forall b | b in t
        ensures InMainChain(next, best, b) <==> IsAncestor(t, root, b, best)
      {
        MainChainIsAncestry(t, root, next, best, b);
      }
    } else {
      ChainShape(t, root, tip);
      ChainDistinct(t, root, tip);
      assert !InMainChain(next, best, tip);
    }
  }

  function Abs(x: int): nat {
    if x < 0 then -x else x
  }

  /** FindBlockByHeight: from genesis, the tip or the cached block, whichever the source picks. */
  method FindBlockByHeight(t: Tree, root: nat, next: map<nat, nat>, best: nat, cache: Option<nat>, height: nat)
    returns (b: nat, cache': Option<nat>)
    requires TreeOk(t, root) && best in t && Links(next, Chain(t, root, best))
    requires cache.Some? ==> IsAncestor(t, root, cache.value, best)
    requires height <= t[best].height
    ensures IsAncestor(t, root, b, best) && t[b].height == height
    ensures cache' == Some(b)
  {
    AncestorSelf(t, root, best);
    b := if height < t[best].height / 2 then root else best;
    if cache.Some? && Abs(height - t[b].height) > Abs(height - t[cache.value].height) {
      b := cache.value;
    }
    ghost var c := Chain(t, root, best);
    ChainShape(t, root, best);
    while t[b].height > height
      invariant IsAncestor(t, root, b, best)
      decreases t[b].height
    {
      ParentIsAncestor(t, root, b, best);
      b := t[b].pprev.value;
    }
    while t[b].height < height
      invariant IsAncestor(t, root, b, best) && t[b].height <= height
      decreases height - t[b].height
    {
      AncestorAt(t, root, b, best);
      ghost var k := t[b].height;
      assert c[k] in next && next[c[k]] == c[k + 1];
      b := next[b];
      assert b == c[k + 1] && t[c[k + 1]].height == k + 1;
    }
    cache' := Some(b);
  }

  // ---------------------------------------------------------------- locators

  /** Listed blocks are ancestors of `b` in strictly decreasing height. */
  ghost predicate Listed(t: Tree, root: nat, b: nat, have: seq<nat>)
    requires TreeOk(t, root)
  {
    && (forall i :: 0 <= i < |have| ==> IsAncestor(t, root, have[i], b))
    && (forall i, j :: 0 <= i < j < |have| ==> t[have[i]].height > t[have[j]].height)
  }

  /** Up to `step` moves towards the root; `None` when it runs past the root. */
  method StepBack(t: Tree, root: nat, b: nat, p: nat, step: nat) returns (q: Option<nat>)
    requires TreeOk(t, root) && IsAncestor(t, root, p, b) && step > 0
    ensures q.Some? <==> t[p].height >= step
    ensures q.Some? ==> IsAncestor(t, root, q.value, b) && t[q.value].height == t[p].height - step
  {
    q := Some(p);
    var i := 0;
    while q.Some? && i < step
      invariant 0 <= i <= step
      invariant q.Some? ==> IsAncestor(t, root, q.value, b) && t[q.value].height == t[p].height - i
      invariant q.None? ==> t[p].height < step
      decreases step - i
    {
      if q.value != root {
        ParentIsAncestor(t, root, q.value, b);
      }
      q := t[q.value].pprev;
      i := i + 1;
    }
  }

  /** How far below the tip the entry `k` of a locator lies: ten single steps, then doubling ones. */
  function Distance(k: nat): nat {
    if k <= 10 then k else 9 + Pow(2, k - 10)
  }

  lemma DistanceStep(k: nat)
    ensures Distance(k + 1) - Distance(k) == if k <= 10 then 1 else 2 * (Distance(k) - Distance(k - 1))
    ensures Distance(k) < Distance(k + 1)
  {
    assert k >= 10 ==> Pow(2, k - 9) == 2 * Pow(2, k - 10);
    assert k > 10 ==> Pow(2, k - 10) == 2 * Pow(2, k - 11);
  }

  lemma {:induction false} DistanceGrows(i: nat, k: nat)
    requires i < k
    ensures Distance(i) < Distance(k)
    decreases k
  {
    hide Distance;
    DistanceStep(k - 1);
    if i < k - 1 {
      DistanceGrows(i, k - 1);
    }
  }

  /** Every entry is the ancestor of `b` at its distance. */
  ghost predicate AtDistances(t: Tree, root: nat, b: nat, have: seq<nat>)
    requires TreeOk(t, root) && b in t
  {
    forall k: nat :: k < |have| ==> IsAncestor(t, root, have[k], b) && t[have[k]].height == t[b].height - Distance(k)
  }

  lemma DistancesListed(t: Tree, root: nat, b: nat, have: seq<nat>)
    requires TreeOk(t, root) && b in t && AtDistances(t, root, b, have)
    ensures Listed(t, root, b, have)
  {
    hide Distance, TreeOk;
    forall i, j | 0 <= i < j < |have|
      ensures t[have[i]].height > t[have[j]].height
    {
      DistanceGrows(i, j);
    }
  }

  /**
   CBlockLocator::Set: single steps for the first ones, then exponentially larger steps, then genesis. The entries are
   exactly the ancestors at the distances that the chain is long enough for.
   */
  method SetLocator(t: Tree, root: nat, b: nat) returns (have: seq<nat>)
    requires TreeOk(t, root) && b in t
    ensures |have| >= 2 && have[0] == b && have[|have| - 1] == root
    ensures AtDistances(t, root, b, have[..|have| - 1]) && t[b].height < Distance(|have| - 1)
    ensures Listed(t, root, b, have[..|have| - 1])
  {
    hide TreeOk, Distance;
    AncestorSelf(t, root, b);
    have := [];
    var step := 1;
    var p := Some(b);
    FirstDistances();
    while p.Some?
      invariant step == Distance(|have| + 1) - Distance(|have|)
      invariant AtDistances(t, root, b, have)
      invariant have == [] ==> p == Some(b)
      invariant have != [] ==> have[0] == b
      invariant p.Some? ==> IsAncestor(t, root, p.value, b) && t[p.value].height == t[b].height - Distance(|have|)
      invariant p.None? ==> have != [] && t[b].height < Distance(|have|)
      decreases if p.Some? then t[p.value].height + 1 else 0
    {
      DistanceStep(|have|);
      DistanceStep(|have| + 1);
      have := have + [p.value];
      p := StepBack(t, root, b, p.value, step);
      if |have| > 10 {
        step := step * 2;
      }
    }
    DistancesListed(t, root, b, have);
    have := have + [root];
    assert have[..|have| - 1] + [root] == have;
  }

  lemma FirstDistances()
    ensures Distance(0) == 0 && Distance(1) == 1
  {
  }

  /** The listed blocks that the other side knows on its main chain. */
  ghost predicate Shared(t: Tree, next: map<nat, nat>, best: nat, have: seq<nat>, i: nat)
    requires i < |have|
  {
    have[i] in t && InMainChain(next, best, have[i])
  }

  /** CBlockLocator::GetBlockIndex: the first listed block that is known and in the main chain. */
  method GetBlockIndex(t: Tree, root: nat, next: map<nat, nat>, best: nat, have: seq<nat>)
    returns (b: nat, ghost at: nat)
    ensures at <= |have|
    ensures forall i :: 0 <= i < at ==> !Shared(t, next, best, have, i)
    ensures if at < |have| then Shared(t, next, best, have, at) && b == have[at] else b == root
    ensures b == root || b in have
  {
    for i := 0 to |have|
      invariant forall k :: 0 <= k < i ==> !Shared(t, next, best, have, k)
    {
      if have[i] in t && InMainChain(next, best, have[i]) {
        return have[i], i;
      }
    }
    return root, |have|;
  }

  /** The block a locator of `b` resolves to is the highest listed block that is on both chains. */
  lemma LocatorFindsHighestCommon(t: Tree, root: nat, next: map<nat, nat>, best: nat, b: nat, have: seq<nat>, at: nat)
    requires TreeOk(t, root) && best in t && b in t && Links(next, Chain(t, root, best))
    requires |have| >= 1 && have[|have| - 1] == root && Listed(t, root, b, have[..|have| - 1])
    requires at < |have| && Shared(t, next, best, have, at)
    requires forall i :: 0 <= i < at ==> !Shared(t, next, best, have, i)
    ensures IsAncestor(t, root, have[at], b) && IsAncestor(t, root, have[at], best)
    ensures forall i :: 0 <= i < |have| && IsAncestor(t, root, have[i], best) ==> t[have[i]].height <= t[have[at]].height
  {
    hide Chain, Links, InMainChain;
    AncestorSelf(t, root, b);
    MainChainIsAncestry(t, root, next, best, have[at]);
    forall i | 0 <= i < |have| - 1
      ensures have[i] == have[..|have| - 1][i]
    {
    }
    forall i | 0 <= i < |have| && IsAncestor(t, root, have[i], best)
      ensures t[have[i]].height <= t[have[at]].height
    {
      MainChainIsAncestry(t, root, next, best, have[i]);
      assert Shared(t, next, best, have, i);
    }
  }

  /** One entry further down is at most twice as far away, plus one. */
  lemma DistanceDoubles(k: nat)
    ensures Distance(k + 1) <= 2 * Distance(k) + 1
    ensures k < 10 ==> Distance(k + 1) == Distance(k) + 1
  {
    DistanceStep(k);
  }

  lemma AncestorNoHigher(t: Tree, root: nat, a: nat, b: nat)
    requires TreeOk(t, root) && IsAncestor(t, root, a, b)
    ensures t[a].height <= t[b].height
  {
    AncestorAt(t, root, a, b);
  }

  lemma AncestorTransitive(t: Tree, root: nat, a: nat, c: nat, b: nat)
    requires TreeOk(t, root) && IsAncestor(t, root, a, c) && IsAncestor(t, root, c, b)
    ensures IsAncestor(t, root, a, b)
  {
    AncestorAt(t, root, c, b);
    AncestorAt(t, root, a, c);
  }

  /** A locator entry that the other chain lacks lies above the fork. */
  lemma UnsharedAboveFork(t: Tree, root: nat, next: map<nat, nat>, best: nat, b: nat, have: seq<nat>, i: nat, fork: nat)
    requires TreeOk(t, root) && best in t && b in t && Links(next, Chain(t, root, best)) && IsFork(t, root, fork, best, b)
    requires i < |have| && IsAncestor(t, root, have[i], b) && !Shared(t, next, best, have, i)
    ensures t[have[i]].height > t[fork].height
  {
    hide Chain, Links, InMainChain;
    MainChainIsAncestry(t, root, next, best, have[i]);
    if t[have[i]].height <= t[fork].height {
      AncestorsRelated(t, root, have[i], fork, b);
      AncestorTransitive(t, root, have[i], fork, best);
    }
  }

  /**
   The block that a locator of `b` resolves to lies at most twice as far below `b` as the fork with the other chain, and
   is the fork itself when that is at most ten blocks below `b`.
   */
  lemma LocatorFindsNearFork(t: Tree, root: nat, next: map<nat, nat>, best: nat, b: nat, have: seq<nat>, at: nat, fork: nat)
    requires TreeOk(t, root) && best in t && b in t && Links(next, Chain(t, root, best))
    requires |have| >= 2 && have[|have| - 1] == root && AtDistances(t, root, b, have[..|have| - 1])
    requires t[b].height < Distance(|have| - 1)
    requires at < |have| && Shared(t, next, best, have, at)
    requires forall i :: 0 <= i < at ==> !Shared(t, next, best, have, i)
    requires IsFork(t, root, fork, best, b)
    ensures t[b].height - t[have[at]].height <= 2 * (t[b].height - t[fork].height)
    ensures t[b].height - t[fork].height <= 10 ==> have[at] == fork
  {
    hide Chain, Links, InMainChain, TreeOk, Distance, Shared;
    var list, d := have[..|have| - 1], t[b].height - t[fork].height;
    DistancesListed(t, root, b, list);
    LocatorFindsHighestCommon(t, root, next, best, b, have, at);
    FirstDistances();
    AncestorNoHigher(t, root, have[at], fork);
    AncestorNoHigher(t, root, fork, b);
    assert at < |have| - 1 ==> list[at] == have[at];
    if at > 0 {
      assert list[at - 1] == have[at - 1];
      UnsharedAboveFork(t, root, next, best, b, have, at - 1, fork);
      DistanceDoubles(at - 1);
      assert Distance(at - 1) < d;
    }
    if d <= 10 {
      SmallDistance(at);
      SameHeightSameAncestor(t, root, fork, have[at], b);
    }
  }

  lemma SmallDistance(at: nat)
    ensures at <= 10 ==> Distance(at) == at
    ensures at > 10 ==> Distance(at - 1) >= 10
  {
    if at > 11 {
      DistanceGrows(10, at - 1);
    }
  }
}
