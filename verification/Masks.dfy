/** Mounting masks over ignored files for a lease, and taking them off again. */
module Masks {

  type Path = string

  datatype Mode = Transparent | Readonly | Masked

  /** What looking at an ignored path finds. */
  datatype Found = Missing | Unreadable | Symlink | Regular | Directory

  datatype Try = Made | Vanished | Failed

  class MountTable {
    /** How often each path is mounted over, and how often read-only. */
    var mounts: multiset<Path>
    var readonly: multiset<Path>
    /** Paths found not to be there, and paths that could not be unmounted. */
    var gone: multiset<Path>
    var stuck: multiset<Path>
    /** How often masking met a path it may not mask, or a system call that failed. */
    var troubles: nat

    constructor ()
      ensures mounts == readonly == gone == stuck == multiset{} && troubles == 0
    {
      mounts, readonly, gone, stuck, troubles := multiset{}, multiset{}, multiset{}, multiset{}, 0;
    }

    /** The path may be gone by now, or the system call may fail; then nothing is mounted. */
    method BindMount(target: Path) returns (r: Try)
      modifies this`mounts, this`gone, this`troubles
      ensures mounts == old(mounts) + if r.Made? then multiset{target} else multiset{}
      ensures gone == old(gone) + if r.Vanished? then multiset{target} else multiset{}
      ensures troubles == old(troubles) + if r.Made? then 0 else 1
    {
      r := *;
      if r.Made? {
        mounts := mounts + multiset{target};
      } else {
        troubles := troubles + 1;
      }
      if r.Vanished? {
        gone := gone + multiset{target};
      }
    }

    method RemountRO(target: Path) returns (ok: bool)
      modifies this`readonly, this`troubles
      ensures readonly == old(readonly) + if ok then multiset{target} else multiset{}
      ensures troubles == old(troubles) + if ok then 0 else 1
    {
      ok := *;
      if ok {
        readonly := readonly + multiset{target};
      } else {
        troubles := troubles + 1;
      }
    }

    /** Taking off the topmost mount; a path without one is no error. */
    method Umount(path: Path) returns (ok: bool)
      modifies this`mounts, this`stuck
      ensures mounts == old(mounts) - if ok then multiset{path} else multiset{}
      ensures stuck == old(stuck) + if ok then multiset{} else multiset{path}
    {
      ok := *;
      if ok {
        mounts := mounts - multiset{path};
      } else {
        stuck := stuck + multiset{path};
      }
    }

    method Lstat(path: Path) returns (found: Found)
      modifies this`gone, this`troubles
      ensures gone == old(gone) + if found.Missing? then multiset{path} else multiset{}
      ensures troubles == old(troubles) + if found.Unreadable? || found.Symlink? then 1 else 0
    {
      found := *;
      if found.Missing? {
        gone := gone + multiset{path};
      } else if found.Unreadable? || found.Symlink? {
        troubles := troubles + 1;
      }
    }

    /**
     Mask one path; a failure may come after its mount was made.  Only trouble makes it fail, and only a
     path that is not there goes without a mask.
     */
    method MaskOne(target: Path, mode: Mode) returns (made: bool, ok: bool)
      requires !mode.Transparent?
      modifies this
      ensures mounts == old(mounts) + if made then multiset{target} else multiset{}
      ensures stuck == old(stuck) && old(troubles) <= troubles
      ensures !ok ==> troubles > old(troubles)
      ensures ok ==> gone == old(gone) + if made then multiset{} else multiset{target}
      ensures ok ==> readonly == old(readonly) + if made && mode.Readonly? then multiset{target} else multiset{}
    {
      var found := Lstat(target);
      if found.Missing? {
        return false, true;
      }
      if found.Unreadable? || found.Symlink? {
        return false, false;
      }
      var r := BindMount(target);
      if r.Vanished? && mode.Readonly? {
        return false, true;
      }
      if !r.Made? {
        return false, false;
      }
      ok := true;
      if mode.Readonly? {
        ok := RemountRO(target);
      }
      return true, ok;
    }

    /**
     Whatever fails, the result lists exactly the mounts made, in the order they were made; without trouble
     every path is listed that is there, and read-only if it should be.
     */
    method MaskIgnoredFiles(ignored: seq<Path>, mode: Mode) returns (targets: seq<Path>, ok: bool)
      modifies this
      ensures mounts == old(mounts) + multiset(targets) && stuck == old(stuck)
      ensures Within(targets, ignored)
      ensures mode.Transparent? ==> ok && targets == []
      ensures !ok ==> troubles > old(troubles)
      ensures ok && !mode.Transparent? ==> old(gone) + multiset(ignored) == gone + multiset(targets)
      ensures ok && mode.Readonly? ==> readonly == old(readonly) + multiset(targets)
    {
      targets, ok := [], true;
      if mode.Transparent? {
        return;
      }
      for i := 0 to |ignored|
        invariant ok && stuck == old(stuck) && old(troubles) <= troubles && Within(targets, ignored[..i])
        invariant More(old(mounts), mounts, targets) && Accounted(old(gone), gone, ignored[..i], targets)
        invariant mode.Readonly? ==> More(old(readonly), readonly, targets)
      {
        ghost var m, r, g, t := mounts, readonly, gone, targets;
        var made;
        made, ok := MaskOne(ignored[i], mode);
        // Listed even if the call failed later: the mount is there.
        if made {
          targets := targets + [ignored[i]];
        }
        WithinMore(t, ignored, i);
        MoreNext(old(mounts), m, mounts, t, targets, ignored[i], made);
        if !ok {
          WithinPrefix(targets, ignored, i + 1);
          return;
        }
        if mode.Readonly? { MoreNext(old(readonly), r, readonly, t, targets, ignored[i], made); }
        AccountedNext(old(gone), g, gone, ignored, i, t, targets, made);
      }
      assert ignored[..|ignored|] == ignored;
    }

    /** Every path but an empty one is tried, the last one first; `left` are those that failed. */
    method UmountPathsReverse(paths: seq<Path>) returns (ok: bool, ghost left: seq<Path>)
      modifies this
      ensures ok <==> left == []
      ensures Within(left, paths) && stuck == old(stuck) + multiset(left)
      ensures exists off :: Parted(paths, left, off) && mounts == old(mounts) - off
    {
      ok, left := true, [];
      ghost var off: multiset<Path> := multiset{};
      var i := |paths|;
      TriedNone(paths);
      while i > 0
        invariant 0 <= i <= |paths| && Tried(paths, i, left, off)
        invariant ok <==> left == []
        invariant mounts == old(mounts) - off && More(old(stuck), stuck, left)
      {
        i := i - 1;
        TriedMore(paths, i, left, off);
        MoreCons(old(stuck), stuck, left, paths[i]);
        if paths[i] == "" {
          continue;
        }
        var unmounted := Umount(paths[i]);
        if unmounted {
          off := off + multiset{paths[i]};
        } else {
          ok := false;
          left := [paths[i]] + left;
        }
      }
      TriedAll(paths, left, off);
    }

    /** The masks of an acquire: all of them made, or taken off again as far as that works. */
    method MaskOrAbort(ignored: seq<Path>, mode: Mode) returns (masks: seq<Path>, ok: bool, undone: bool)
      requires "" !in ignored
      modifies this
      ensures ok ==> mounts == old(mounts) + multiset(masks)
      ensures !ok && undone ==> mounts == old(mounts) && stuck == old(stuck)
      ensures !ok && !undone ==>
        exists left :: Within(left, masks) && left != [] && mounts == old(mounts) + multiset(left)
                       && stuck == old(stuck) + multiset(left)
    {
      masks, ok := MaskIgnoredFiles(ignored, mode);
      undone := true;
      if !ok {
        WithinMembers(masks, ignored, "");
        ghost var left;
        undone, left := UmountPathsReverse(masks);
        WithinMembers(left, masks, "");
        assert mounts == old(mounts) + multiset(left);
      }
    }
  }

  ghost predicate More(before: multiset<Path>, after: multiset<Path>, paths: seq<Path>) {
    (after == before + multiset(paths)) == true
  }

  /** One more path is listed when it was counted. */
  lemma MoreNext(before: multiset<Path>, m: multiset<Path>, n: multiset<Path>, paths: seq<Path>, longer: seq<Path>,
                 p: Path, counted: bool)
    requires More(before, m, paths) && n == m + if counted then multiset{p} else multiset{}
    requires longer == if counted then paths + [p] else paths
    ensures More(before, n, longer)
  {
  }

  lemma MoreCons(before: multiset<Path>, after: multiset<Path>, paths: seq<Path>, p: Path)
    requires More(before, after, paths)
    ensures More(before, after + multiset{p}, [p] + paths)
  {
  }

  /** Each of the paths has become a target or was found to be gone. */
  ghost predicate Accounted(before: multiset<Path>, gone: multiset<Path>, paths: seq<Path>, targets: seq<Path>) {
    (before + multiset(paths) == gone + multiset(targets)) == true
  }

  lemma AccountedNext(before: multiset<Path>, g: multiset<Path>, gone: multiset<Path>, paths: seq<Path>, i: nat,
                      targets: seq<Path>, longer: seq<Path>, made: bool)
    requires i < |paths| && Accounted(before, g, paths[..i], targets)
    requires gone == g + if made then multiset{} else multiset{paths[i]}
    requires longer == if made then targets + [paths[i]] else targets
    ensures Accounted(before, gone, paths[..i + 1], longer)
  {
    var p := multiset{paths[i]};
    assert paths[..i + 1] == paths[..i] + [paths[i]];
    assert before + multiset(paths[..i + 1]) == before + multiset(paths[..i]) + p;
    assert gone + multiset(longer) == g + multiset(targets) + p;
  }

  /** The paths are those left and those taken off, except for empty ones. */
  ghost predicate Parted(paths: seq<Path>, left: seq<Path>, off: multiset<Path>) {
    (forall p :: if p == "" then p !in left && p !in off
                 else multiset(paths)[p] == multiset(left)[p] + off[p]) == true
  }

  lemma PartedCons(paths: seq<Path>, left: seq<Path>, off: multiset<Path>, i: nat)
    requires i < |paths| && Parted(paths[i + 1..], left, off)
    ensures paths[i] == "" ==> Parted(paths[i..], left, off)
    ensures paths[i] != "" ==>
      Parted(paths[i..], left, off + multiset{paths[i]}) && Parted(paths[i..], [paths[i]] + left, off)
  {
    assert paths[i..] == [paths[i]] + paths[i + 1..];
  }

  /** The paths from `i` on have been tried: some are left, the others are off. */
  ghost predicate Tried(paths: seq<Path>, i: nat, left: seq<Path>, off: multiset<Path>) {
    (i <= |paths| && Within(left, paths[i..]) && Parted(paths[i..], left, off)) == true
  }

  lemma TriedNone(paths: seq<Path>)
    ensures Tried(paths, |paths|, [], multiset{})
  {
  }

  lemma TriedMore(paths: seq<Path>, i: nat, left: seq<Path>, off: multiset<Path>)
    requires i < |paths| && Tried(paths, i + 1, left, off)
    ensures paths[i] == "" ==> Tried(paths, i, left, off)
    ensures paths[i] != "" ==>
      Tried(paths, i, left, off + multiset{paths[i]}) && Tried(paths, i, [paths[i]] + left, off)
  {
    WithinCons(left, paths, i);
    PartedCons(paths, left, off, i);
  }

  lemma TriedAll(paths: seq<Path>, left: seq<Path>, off: multiset<Path>)
    requires Tried(paths, 0, left, off)
    ensures Within(left, paths) && Parted(paths, left, off)
  {
    assert paths[0..] == paths;
  }

  lemma {:induction false} WithinMembers(part: seq<Path>, all: seq<Path>, p: Path)
    requires Within(part, all) && p !in all
    ensures p !in part
    decreases |all|
  {
    if part != [] {
      var n, m := |all| - 1, |part| - 1;
      if part[m] == all[n] && Within(part[..m], all[..n]) {
        WithinMembers(part[..m], all[..n], p);
        assert part == part[..m] + [part[m]];
      } else {
        WithinMembers(part, all[..n], p);
      }
    }
  }

  /** A selection of the list, in its order. */
  predicate Within(part: seq<Path>, all: seq<Path>)
    decreases |all|
  {
    if part == [] then true
    else if all == [] then false
    else if part[|part| - 1] == all[|all| - 1] && Within(part[..|part| - 1], all[..|all| - 1]) then true
    else Within(part, all[..|all| - 1])
  }

  lemma WithinMore(part: seq<Path>, all: seq<Path>, i: nat)
    requires i < |all| && Within(part, all[..i])
    ensures Within(part, all[..i + 1]) && Within(part + [all[i]], all[..i + 1])
  {
    assert all[..i + 1][..i] == all[..i];
    assert (part + [all[i]])[..|part|] == part;
  }

  lemma {:induction false} WithinPrefix(part: seq<Path>, all: seq<Path>, i: nat)
    requires i <= |all| && Within(part, all[..i])
    ensures Within(part, all)
    decreases |all| - i
  {
    if i == |all| {
      assert all[..i] == all;
    } else {
      WithinMore(part, all, i);
      WithinPrefix(part, all, i + 1);
    }
  }

  lemma {:induction false} WithinPrepend(part: seq<Path>, all: seq<Path>, x: Path)
    requires Within(part, all)
    ensures Within(part, [x] + all) && Within([x] + part, [x] + all)
    decreases |all|
  {
    if part == [] {
      WithinOne([x] + all);
      assert [x] + part == [x];
    } else {
      var n, m := |all| - 1, |part| - 1;
      assert ([x] + all)[..n + 1] == [x] + all[..n];
      assert ([x] + part)[..m + 1] == [x] + part[..m];
      if part[m] == all[n] && Within(part[..m], all[..n]) {
        WithinPrepend(part[..m], all[..n], x);
      } else {
        WithinPrepend(part, all[..n], x);
      }
    }
  }

  lemma {:induction false} WithinOne(all: seq<Path>)
    requires all != []
    ensures Within([all[0]], all)
  {
    if |all| > 1 {
      WithinOne(all[..|all| - 1]);
    }
  }

  lemma WithinCons(part: seq<Path>, all: seq<Path>, i: nat)
    requires i < |all| && Within(part, all[i + 1..])
    ensures Within(part, all[i..]) && Within([all[i]] + part, all[i..])
  {
    assert all[i..] == [all[i]] + all[i + 1..];
    WithinPrepend(part, all[i + 1..], all[i]);
  }
}
