/**
  The software inventory: tags found on disk and installed applications go through one
  deduplication by case-folded key, and running processes refresh the last-used time. The walk over
  the file system and the folding functions are parameters.
 */
module TagInventory {
  import opened Plist

  /** `details` stands for the fields the inventory carries without looking at them. */
  datatype Tag = Tag(name: string, tagId: string, path: string, lastUsed: string, details: string)

  datatype Process = Process(name: string, path: string)

  datatype Folding = Folding(lower: string -> string, equal: (string, string) -> bool)

  /** One configured directory: the context is done before it is looked at, it does not exist, or
      the walk (which may stop early) parsed these tags. */
  datatype Root = ContextDone | Missing | Walked(tags: seq<Tag>)

  datatype Inventory = Inventory(tags: seq<Tag>, total: nat)

  /** The tag id, or else the name, case-folded. */
  function Key(tag: Tag, f: Folding): string {
    if f.lower(tag.tagId) == "" then f.lower(tag.name) else f.lower(tag.tagId)
  }

  /** Tag i has a key, and no earlier tag has the same. */
  predicate IsFirst(tags: seq<Tag>, i: nat, f: Folding)
    requires i < |tags|
  {
    Key(tags[i], f) != "" && forall j :: 0 <= j < i ==> Key(tags[j], f) != Key(tags[i], f)
  }

  /** The tags that are first with their key, in order. */
  function Firsts(tags: seq<Tag>, f: Folding): seq<Tag> {
    if tags == [] then []
    else
      var n := |tags| - 1;
      Firsts(tags[..n], f) + (if IsFirst(tags, n, f) then [tags[n]] else [])
  }

  /** Everything the walks deliver before the context is seen to be done. */
  function Scanned(roots: seq<Root>): seq<Tag> {
    if roots == [] || roots[0].ContextDone? then []
    else (if roots[0].Walked? then roots[0].tags else []) + Scanned(roots[1..])
  }

  predicate UsedBy(tag: Tag, p: Process, f: Folding) {
    || (f.lower(tag.path) != "" && f.lower(p.path) != "" && Has(f.lower(p.path), f.lower(tag.path)))
    || (f.lower(tag.name) != "" && f.lower(p.name) != "" && f.equal(f.lower(tag.name), f.lower(p.name)))
  }

  predicate InUse(tag: Tag, processes: seq<Process>, f: Folding) {
    exists i :: 0 <= i < |processes| && UsedBy(tag, processes[i], f)
  }

  ghost function Keys(tags: seq<Tag>, f: Folding): set<string> {
    set i | 0 <= i < |tags| && Key(tags[i], f) != "" :: Key(tags[i], f)
  }

  // ----- the collector -----

  /** What the collector has seen: the keys of all tags so far, and the first tag for each. */
  ghost predicate Collected(all: seq<Tag>, seen: set<string>, tags: seq<Tag>, f: Folding) {
    seen == Keys(all, f) && tags == Firsts(all, f)
  }

  method AddTag(tag: Tag, seen: set<string>, tags: seq<Tag>, f: Folding, ghost all: seq<Tag>)
    returns (seen': set<string>, tags': seq<Tag>)
    requires Collected(all, seen, tags, f)
    ensures Collected(all + [tag], seen', tags', f)
  {
    var key := f.lower(tag.tagId);
    if key == "" {
      key := f.lower(tag.name);
    }
    ghost var longer := all + [tag];
    assert longer[..|all|] == all;
    KeysAppend(all, tag, f);
    FirstUnlessSeen(all, tag, f);
    if key != "" && key !in seen {
      return seen + {key}, tags + [tag];
    }
    return seen, tags;
  }

  lemma KeysAppend(all: seq<Tag>, tag: Tag, f: Folding)
    ensures Keys(all + [tag], f) == Keys(all, f) + (if Key(tag, f) == "" then {} else {Key(tag, f)})
  {
    var longer := all + [tag];
    assert longer[|all|] == tag;
    forall i | 0 <= i < |all| ensures longer[i] == all[i] {
    }
    forall k | k in Keys(all, f) ensures k in Keys(longer, f) {
      var i :| 0 <= i < |all| && Key(all[i], f) != "" && Key(all[i], f) == k;
      assert longer[i] == all[i];
    }
  }

  lemma NoKeys(f: Folding)
    ensures Keys([], f) == {}
  {
  }

  method AddAll(more: seq<Tag>, seen: set<string>, tags: seq<Tag>, f: Folding, ghost all: seq<Tag>)
    returns (seen': set<string>, tags': seq<Tag>)
    requires Collected(all, seen, tags, f)
    ensures Collected(all + more, seen', tags', f)
  {
    hide Collected;
    seen', tags' := seen, tags;
    assert all + more[..0] == all;
    for i := 0 to |more|
      invariant Collected(all + more[..i], seen', tags', f)
    {
      seen', tags' := AddTag(more[i], seen', tags', f, all + more[..i]);
      assert all + more[..i + 1] == all + more[..i] + [more[i]];
    }
    assert more[..|more|] == more;
  }

  /** The last pass changes nothing but the last-used time, and that exactly on tags in use. */
  method MarkUsed(tags: seq<Tag>, processes: seq<Process>, now: string, f: Folding) returns (marked: seq<Tag>)
    ensures |marked| == |tags|
    ensures forall i :: 0 <= i < |tags| ==>
              marked[i] == tags[i].(lastUsed := if InUse(tags[i], processes, f) then now else tags[i].lastUsed)
  {
    marked := tags;
    for i := 0 to |tags|
      invariant |marked| == |tags|
      invariant forall k :: 0 <= k < i ==>
                  marked[k] == tags[k].(lastUsed := if InUse(tags[k], processes, f) then now else tags[k].lastUsed)
      invariant forall k :: i <= k < |tags| ==> marked[k] == tags[k]
    {
      var j := 0;
      while j < |processes|
        invariant 0 <= j <= |processes|
        invariant marked[i] == tags[i]
        invariant forall k :: 0 <= k < j ==> !UsedBy(tags[i], processes[k], f)
        invariant |marked| == |tags|
        invariant forall k :: 0 <= k < i ==>
                    marked[k] == tags[k].(lastUsed := if InUse(tags[k], processes, f) then now else tags[k].lastUsed)
        invariant forall k :: i <= k < |tags| ==> marked[k] == tags[k]
      {
        if UsedBy(tags[i], processes[j], f) {
          marked := marked[i := tags[i].(lastUsed := now)];
          break;
        }
        j := j + 1;
      }
    }
  }

  /**
    The whole collection. On cancellation the tags so far come back without a total; otherwise the
    total is their number, and the result is the first tag for each key, scanned ones before
    applications, with the last-used time of tags in use refreshed.
   */
  method CollectWithProcesses(roots: seq<Root>, includeApps: bool, apps: seq<Tag>, processes: seq<Process>,
      now: string, f: Folding)
    returns (inventory: Inventory, cancelled: bool)
    ensures cancelled <==> exists i :: 0 <= i < |roots| && roots[i].ContextDone?
    ensures cancelled ==> inventory == Inventory(Firsts(Scanned(roots), f), 0)
    ensures !cancelled ==>
              var firsts := Firsts(Scanned(roots) + (if includeApps then apps else []), f);
              && inventory.total == |inventory.tags| == |firsts|
              && forall i :: 0 <= i < |firsts| ==>
                   inventory.tags[i]
                   == firsts[i].(lastUsed := if InUse(firsts[i], processes, f) then now else firsts[i].lastUsed)
  {
    hide Keys, IsFirst, Key;
    assert Keys([], f) == {} by { NoKeys(f); }
    var seen: set<string>, tags: seq<Tag> := {}, [];
    ghost var all: seq<Tag> := [];
    var r := 0;
    while r < |roots|
      invariant 0 <= r <= |roots|
      invariant Collected(all, seen, tags, f)
      invariant Scanned(roots) == all + Scanned(roots[r..])
      invariant forall i :: 0 <= i < r ==> !roots[i].ContextDone?
    {
      assert roots[r..][1..] == roots[r + 1..];
      if roots[r].ContextDone? {
        assert Scanned(roots) == all;
        return Inventory(tags, 0), true;
      }
      if roots[r].Walked? {
        seen, tags := AddAll(roots[r].tags, seen, tags, f, all);
        all := all + roots[r].tags;
      }
      r := r + 1;
    }
    assert Scanned(roots) == all;
    if includeApps {
      seen, tags := AddAll(apps, seen, tags, f, all);
    }
    assert all + [] == all;
    var marked := MarkUsed(tags, processes, now, f);
    return Inventory(marked, |marked|), false;
  }

  // ----- what "first with its key" means -----

  lemma FirstInPrefix(tags: seq<Tag>, n: nat, k: nat, f: Folding)
    requires k < n <= |tags|
    ensures IsFirst(tags[..n], k, f) <==> IsFirst(tags, k, f)
  {
    hide Key;
    assert forall j :: 0 <= j <= k ==> tags[..n][j] == tags[j];
  }

  /** The result is the subsequence of the input at exactly the positions that are first. */
  lemma {:induction false} FirstsIsSubsequence(tags: seq<Tag>, f: Folding) returns (at: seq<nat>)
    ensures |at| == |Firsts(tags, f)|
    ensures forall i, j :: 0 <= i < j < |at| ==> at[i] < at[j]
    ensures forall i :: 0 <= i < |at| ==> at[i] < |tags| && Firsts(tags, f)[i] == tags[at[i]]
    ensures forall k: nat :: k < |tags| ==> (k in at <==> IsFirst(tags, k, f))
  {
    hide IsFirst;
    if tags == [] {
      at := [];
    } else {
      var n := |tags| - 1;
      var before := FirstsIsSubsequence(tags[..n], f);
      at := if IsFirst(tags, n, f) then before + [n] else before;
      forall k: nat | k < |tags| ensures k in at <==> IsFirst(tags, k, f) {
        if k < n {
          FirstInPrefix(tags, n, k, f);
        }
      }
    }
  }

  ghost predicate DistinctKeys(tags: seq<Tag>, f: Folding) {
    && (forall i :: 0 <= i < |tags| ==> Key(tags[i], f) != "")
    && (forall i, j :: 0 <= i < j < |tags| ==> Key(tags[i], f) != Key(tags[j], f))
  }

  lemma FirstsAreDistinct(tags: seq<Tag>, f: Folding)
    ensures DistinctKeys(Firsts(tags, f), f)
  {
    var at := FirstsIsSubsequence(tags, f);
    forall i | 0 <= i < |at| ensures IsFirst(tags, at[i], f) {
      assert at[i] in at;
    }
  }

  lemma {:induction false} DistinctStay(tags: seq<Tag>, f: Folding)
    requires DistinctKeys(tags, f)
    ensures Firsts(tags, f) == tags
  {
    if tags != [] {
      DistinctStay(tags[..|tags| - 1], f);
    }
  }

  /** Deduplicating twice is deduplicating once. */
  lemma DedupIsIdempotent(tags: seq<Tag>, f: Folding)
    ensures Firsts(Firsts(tags, f), f) == Firsts(tags, f)
  {
    FirstsAreDistinct(tags, f);
    DistinctStay(Firsts(tags, f), f);
  }

  /** Scanned tags are never displaced by applications: they come first, as if there were none. */
  lemma {:induction false} ScannedTagsTakePriority(scanned: seq<Tag>, apps: seq<Tag>, f: Folding)
    ensures Firsts(scanned, f) <= Firsts(scanned + apps, f)
    decreases |apps|
  {
    if apps == [] {
      assert scanned + apps == scanned;
    } else {
      var n := |apps| - 1;
      ScannedTagsTakePriority(scanned, apps[..n], f);
      assert (scanned + apps)[..|scanned + apps| - 1] == scanned + apps[..n];
    }
  }

  lemma FirstUnlessSeen(before: seq<Tag>, tag: Tag, f: Folding)
    ensures IsFirst(before + [tag], |before|, f) <==> Key(tag, f) != "" && Key(tag, f) !in Keys(before, f)
  {
    hide Key;
    var longer := before + [tag];
    forall j | 0 <= j < |before| ensures longer[j] == before[j] {
    }
    if Key(tag, f) != "" && Key(tag, f) in Keys(before, f) {
      var j :| 0 <= j < |before| && Key(before[j], f) != "" && Key(before[j], f) == Key(tag, f);
      assert Key(longer[j], f) == Key(longer[|before|], f);
    }
  }

  /** No key that occurs is missing from the result. */
  lemma {:induction false} EveryKeyIsKept(tags: seq<Tag>, f: Folding)
    ensures Keys(Firsts(tags, f), f) == Keys(tags, f)
  {
    hide Key, IsFirst, Keys;
    if tags != [] {
      var n := |tags| - 1;
      var before := tags[..n];
      EveryKeyIsKept(before, f);
      assert tags == before + [tags[n]];
      KeysAppend(before, tags[n], f);
      FirstUnlessSeen(before, tags[n], f);
      if IsFirst(tags, n, f) {
        KeysAppend(Firsts(before, f), tags[n], f);
      } else {
        assert Firsts(tags, f) == Firsts(before, f);
        assert Keys(tags, f) == Keys(before, f);
      }
    }
  }

  // ----- in the tags' own fields -----

  /** Which positions are kept, exactly: the folded tag id decides, and the folded name where there
      is no tag id. */
  lemma FirstInFields(tags: seq<Tag>, k: nat, f: Folding)
    requires k < |tags|
    ensures IsFirst(tags, k, f) <==>
            var id, name := f.lower(tags[k].tagId), f.lower(tags[k].name);
            && (id != "" || name != "")
            && (id != "" ==> forall j :: 0 <= j < k ==>
                  f.lower(tags[j].tagId) != id && (f.lower(tags[j].tagId) == "" ==> f.lower(tags[j].name) != id))
            && (id == "" ==> forall j :: 0 <= j < k ==>
                  f.lower(tags[j].tagId) != name && (f.lower(tags[j].tagId) == "" ==> f.lower(tags[j].name) != name))
  {
  }

  /** Tags with different tag ids all stay, whatever their names. */
  lemma DifferentIdsStay(tags: seq<Tag>, f: Folding)
    requires forall i :: 0 <= i < |tags| ==> f.lower(tags[i].tagId) != ""
    requires forall i, j :: 0 <= i < j < |tags| ==> f.lower(tags[i].tagId) != f.lower(tags[j].tagId)
    ensures Firsts(tags, f) == tags
  {
    DistinctStay(tags, f);
  }

  /** Of two tags with one tag id only the earlier can stay, whatever their names. */
  lemma SameIdStaysOnce(tags: seq<Tag>, i: nat, j: nat, f: Folding) returns (at: seq<nat>)
    requires i < j < |tags| && f.lower(tags[i].tagId) != "" && f.lower(tags[i].tagId) == f.lower(tags[j].tagId)
    ensures |at| == |Firsts(tags, f)| && j !in at
    ensures forall k :: 0 <= k < |at| ==> at[k] < |tags| && Firsts(tags, f)[k] == tags[at[k]]
  {
    at := FirstsIsSubsequence(tags, f);
    FirstInFields(tags, j, f);
  }

  lemma {:induction false} ContainsMeaning(s: string, t: string)
    ensures Has(s, t) <==> exists a, c :: s == a + t + c
  {
    IndexMeaning(s, t);
    if Has(s, t) {
      var i := Index(s, t);
      assert s == s[..i] + t + s[i + |t|..];
    }
    if a, c :| s == a + t + c {
      assert s[|a|..|a| + |t|] == t;
      assert MatchAt(s, t, |a|);
    }
  }

  /** A tag is in use when a process runs from under its path, or has its name. */
  lemma InUseMeaning(tag: Tag, processes: seq<Process>, f: Folding)
    ensures InUse(tag, processes, f) <==>
            exists i :: 0 <= i < |processes| &&
              var path, exec := f.lower(tag.path), f.lower(processes[i].path);
              var name, running := f.lower(tag.name), f.lower(processes[i].name);
              || (path != "" && exec != "" && exists a, c :: exec == a + path + c)
              || (name != "" && running != "" && f.equal(name, running))
  {
    forall i | 0 <= i < |processes|
      ensures Has(f.lower(processes[i].path), f.lower(tag.path)) <==>
              exists a, c :: f.lower(processes[i].path) == a + f.lower(tag.path) + c
    {
      ContainsMeaning(f.lower(processes[i].path), f.lower(tag.path));
    }
  }

  predicate DoneWithin(roots: seq<Root>, r: nat) {
    exists q :: 0 <= q <= r && q < |roots| && roots[q].ContextDone?
  }

  /** A directory that does not exist is passed over; the scan ends only at a cancellation. */
  lemma {:induction false} ScannedMeaning(roots: seq<Root>, tag: Tag)
    ensures tag in Scanned(roots) <==>
            exists r: nat :: r < |roots| && roots[r].Walked? && tag in roots[r].tags && !DoneWithin(roots, r)
  {
    if roots != [] {
      var rest := roots[1..];
      ScannedMeaning(rest, tag);
      forall r: nat | r < |rest| ensures DoneWithin(roots, r + 1) <==> roots[0].ContextDone? || DoneWithin(rest, r) {
        if DoneWithin(rest, r) {
          var q :| 0 <= q <= r && q < |rest| && rest[q].ContextDone?;
          assert roots[q + 1].ContextDone?;
        }
      }
      if r: nat :| r < |rest| && rest[r].Walked? && tag in rest[r].tags && !DoneWithin(rest, r) {
        assert roots[r + 1] == rest[r];
      }
      if r: nat :| r < |roots| && roots[r].Walked? && tag in roots[r].tags && !DoneWithin(roots, r) {
        assert r > 0 ==> rest[r - 1] == roots[r];
        assert roots[0].ContextDone? ==> DoneWithin(roots, r);
      }
      if roots[0].Walked? && tag in roots[0].tags {
        assert !DoneWithin(roots, 0);
      }
    }
  }

  /** Directories are scanned one after the other. */
  lemma {:induction false} ScannedInOrder(before: seq<Root>, after: seq<Root>)
    requires forall i :: 0 <= i < |before| ==> !before[i].ContextDone?
    ensures Scanned(before + after) == Scanned(before) + Scanned(after)
    ensures |before| == 1 && before[0].Walked? ==> Scanned(before) == before[0].tags
  {
    if before == [] {
      assert before + after == after;
    } else {
      assert (before + after)[1..] == before[1..] + after;
      ScannedInOrder(before[1..], after);
    }
  }
}
