/**
 * What `setCompilers` publishes for each compiler: the compiler's own
 * description without nine internal keys, and, for a compiler marked
 * `isSemVer`, an `$order` that ranks it within its `group` by `semver`,
 * oldest first: 0, -1, -2, ...
 */
module Compilers {
  import opened Wrappers
  import opened JsValues
  import opened Sorting

  /** A compiler description, as the JSON object it is deep-copied as. */
  type Compiler = map<string, Value>

  /** The keys that never leave the server. */
  const ForbiddenKeys: set<string> :=
    {"exe", "versionFlag", "versionRe", "compilerType", "demangler",
     "objdumper", "postProcess", "demanglerType", "isSemVer"}

  predicate IsSemVer(c: Compiler) {
    Truthy(Field(c, "isSemVer"))
  }

  predicate SupportsExecute(c: Compiler) {
    Truthy(Field(c, "supportsExecute"))
  }

  /** `semverGroups[compiler.group]`: the group as a property key. */
  function GroupKey(c: Compiler): string {
    ToKeyString(Field(c, "group"))
  }

  /** `languages[compiler.lang]`: the language as a property key. */
  function LangKey(c: Compiler): string {
    ToKeyString(Field(c, "lang"))
  }

  function SemverKey(c: Compiler): Option<Value> {
    Field(c, "semver")
  }

  /** The compiler with every forbidden key deleted and every other key kept. */
  function Stripped(c: Compiler): Compiler {
    c - ForbiddenKeys
  }

  /** Lines 472-476: delete, one own key at a time, the keys that are forbidden. */
  method StripForbidden(compiler: Compiler) returns (r: Compiler)
    ensures r == Stripped(compiler)
  {
    r := compiler;
    var propKeys := compiler.Keys;
    while propKeys != {}
      invariant propKeys <= compiler.Keys
      invariant r == compiler - (ForbiddenKeys - propKeys)
      decreases |propKeys|
    {
      var propKey :| propKey in propKeys;
      if propKey in ForbiddenKeys {
        r := r - {propKey};
      }
      propKeys := propKeys - {propKey};
    }
    assert r == compiler - ForbiddenKeys;
  }

  /**
   * The members of semver group `g`, in the order the loop pushes them: the
   * position of each compiler in the list, with its `semver` to sort by.
   */
  function GroupMembers(compilers: seq<Compiler>, g: string): seq<Keyed<nat>>
    decreases |compilers|
  {
    if compilers == [] then []
    else
      var n := |compilers| - 1;
      var init := GroupMembers(compilers[..n], g);
      if IsSemVer(compilers[n]) && GroupKey(compilers[n]) == g then init + [Keyed(n, SemverKey(compilers[n]))]
      else init
  }

  /** The members of group `g` in the order line 480 sorts them into. */
  function SortedGroup(compilers: seq<Compiler>, g: string, cmp: VersionCmp): seq<Keyed<nat>> {
    SortBy(GroupMembers(compilers, g), cmp)
  }

  /** Each entry of `m` is a semver compiler of group `g`, with its own `semver`. */
  ghost predicate MembersOf(compilers: seq<Compiler>, g: string, m: seq<Keyed<nat>>) {
    forall k :: 0 <= k < |m| ==>
      m[k].item < |compilers| && IsSemVer(compilers[m[k].item]) && GroupKey(compilers[m[k].item]) == g
      && m[k].key == SemverKey(compilers[m[k].item])
  }

  /**
   * The members of a group are exactly its semver compilers, each once, in
   * list order, each with its own `semver`.
   */
  lemma {:induction false} GroupMembersAt(compilers: seq<Compiler>, g: string)
    ensures MembersOf(compilers, g, GroupMembers(compilers, g))
    ensures forall k1, k2 :: 0 <= k1 < k2 < |GroupMembers(compilers, g)| ==>
      GroupMembers(compilers, g)[k1].item < GroupMembers(compilers, g)[k2].item
    ensures forall i :: 0 <= i < |compilers| && IsSemVer(compilers[i]) && GroupKey(compilers[i]) == g ==>
      Keyed(i, SemverKey(compilers[i])) in GroupMembers(compilers, g)
    decreases |compilers|
  {
    if compilers != [] {
      var n := |compilers| - 1;
      var init := compilers[..n];
      GroupMembersAt(init, g);
      assert forall i :: 0 <= i < n ==> init[i] == compilers[i];
    }
  }

  /** The members of a group, sorted, each once. */
  lemma SortedGroupDistinct(compilers: seq<Compiler>, g: string, cmp: VersionCmp)
    ensures Distinct(SortedGroup(compilers, g, cmp))
  {
    GroupMembersAt(compilers, g);
    var m := GroupMembers(compilers, g);
    forall k1, k2 | 0 <= k1 < k2 < |m| ensures m[k1] != m[k2] {
      assert m[k1].item < m[k2].item;
    }
    SortByDistinct(m, cmp);
  }

  /** The position of semver compiler `i` in its sorted group; its `$order` is minus this. */
  function Rank(compilers: seq<Compiler>, cmp: VersionCmp, i: nat): (r: nat)
    requires i < |compilers| && IsSemVer(compilers[i])
    ensures var s := SortedGroup(compilers, GroupKey(compilers[i]), cmp);
      r < |s| && s[r] == Keyed(i, SemverKey(compilers[i]))
  {
    var g := GroupKey(compilers[i]);
    var member := Keyed(i, SemverKey(compilers[i]));
    GroupMembersAt(compilers, g);
    SortByMembers(GroupMembers(compilers, g), cmp, member);
    IndexOf(SortedGroup(compilers, g, cmp), member)
  }

  /** The compiler at position `i` of `options.compilers` after `setCompilers`. */
  function PublishedAt(compilers: seq<Compiler>, cmp: VersionCmp, i: nat): Compiler
    requires i < |compilers|
  {
    if IsSemVer(compilers[i]) then Stripped(compilers[i])["$order" := Num(-(Rank(compilers, cmp, i) as int))]
    else Stripped(compilers[i])
  }

  /** Whether some compiler of language `l` supports execution. */
  predicate ExecutesIn(compilers: seq<Compiler>, l: string) {
    exists i :: 0 <= i < |compilers| && SupportsExecute(compilers[i]) && LangKey(compilers[i]) == l
  }

  /** The entry at position `k` of a sorted group is the member whose rank is `k`. */
  lemma SortedGroupAt(compilers: seq<Compiler>, g: string, cmp: VersionCmp, k: nat)
    requires k < |SortedGroup(compilers, g, cmp)|
    ensures var j := SortedGroup(compilers, g, cmp)[k].item;
      && j < |compilers| && IsSemVer(compilers[j]) && GroupKey(compilers[j]) == g
      && Rank(compilers, cmp, j) == k
  {
    var s := SortedGroup(compilers, g, cmp);
    var m := GroupMembers(compilers, g);
    GroupMembersAt(compilers, g);
    SortByMembers(m, cmp, s[k]);
    var p :| 0 <= p < |m| && m[p] == s[k];
    SortedGroupDistinct(compilers, g, cmp);
    IndexOfDistinct(s, k);
  }

  /** Lines 451-453: every language's `supportsExecute` cleared. */
  method ResetSupportsExecute(languages: map<string, map<string, Value>>)
    returns (r: map<string, map<string, Value>>)
    ensures r.Keys == languages.Keys
    ensures forall l :: l in r ==> r[l] == languages[l]["supportsExecute" := Bool(false)]
  {
    r := languages;
    var keys := languages.Keys;
    while keys != {}
      invariant keys <= languages.Keys && r.Keys == languages.Keys
      invariant forall l :: l in keys ==> r[l] == languages[l]
      invariant forall l :: l in r && l !in keys ==> r[l] == languages[l]["supportsExecute" := Bool(false)]
      decreases |keys|
    {
      var key :| key in keys;
      r := r[key := r[key]["supportsExecute" := Bool(false)]];
      keys := keys - {key};
    }
  }

  /**
   * Whether compiler `j` is published yet: a semver compiler of a group
   * already numbered, or of group `g` with a rank below `order`.
   */
  predicate Numbered(compilers: seq<Compiler>, cmp: VersionCmp, done: set<string>, g: string, order: nat, j: nat)
    requires j < |compilers|
  {
    IsSemVer(compilers[j]) &&
    (GroupKey(compilers[j]) in done || (GroupKey(compilers[j]) == g && Rank(compilers, cmp, j) < order))
  }

  /** Numbering the member of rank `order` extends what is numbered by that member. */
  lemma NumberStep(compilers: seq<Compiler>, cmp: VersionCmp, done: set<string>, g: string, order: nat,
                   r: seq<Compiler>)
    requires g !in done && order < |SortedGroup(compilers, g, cmp)| && |r| == |compilers|
    requires forall i :: 0 <= i < |compilers| ==>
      r[i] == (if Numbered(compilers, cmp, done, g, order, i) then PublishedAt(compilers, cmp, i) else Stripped(compilers[i]))
    ensures var j := SortedGroup(compilers, g, cmp)[order].item;
      && j < |r|
      && var next := r[j := r[j]["$order" := Num(-(order as int))]];
      forall i :: 0 <= i < |compilers| ==>
        next[i] == (if Numbered(compilers, cmp, done, g, order + 1, i) then PublishedAt(compilers, cmp, i)
                    else Stripped(compilers[i]))
  {
    SortedGroupAt(compilers, g, cmp, order);
    var j := SortedGroup(compilers, g, cmp)[order].item;
    var next := r[j := r[j]["$order" := Num(-(order as int))]];
    forall i | 0 <= i < |compilers|
      ensures next[i] == (if Numbered(compilers, cmp, done, g, order + 1, i) then PublishedAt(compilers, cmp, i)
                          else Stripped(compilers[i]))
    {
      if i != j {
        assert Numbered(compilers, cmp, done, g, order + 1, i) == Numbered(compilers, cmp, done, g, order, i);
      }
    }
  }

  /** Lines 480-485 for one group: sort it, then number it 0, -1, -2, ... */
  method NumberGroup(compilers: seq<Compiler>, cmp: VersionCmp, copied: seq<Compiler>,
                     done: set<string>, g: string, group: seq<Keyed<nat>>)
    returns (r: seq<Compiler>)
    requires group == GroupMembers(compilers, g) && g !in done
    requires |copied| == |compilers|
    requires forall j :: 0 <= j < |compilers| ==>
      copied[j] == (if Numbered(compilers, cmp, done, g, 0, j) then PublishedAt(compilers, cmp, j) else Stripped(compilers[j]))
    ensures |r| == |compilers|
    ensures forall j :: 0 <= j < |compilers| ==>
      r[j] == (if Numbered(compilers, cmp, done + {g}, g, 0, j) then PublishedAt(compilers, cmp, j) else Stripped(compilers[j]))
  {
    var sorted := SortBy(group, cmp);
    r := copied;
    var order := 0;
    while order < |sorted|
      invariant 0 <= order <= |sorted| && |r| == |compilers|
      invariant forall j :: 0 <= j < |compilers| ==>
        r[j] == (if Numbered(compilers, cmp, done, g, order, j) then PublishedAt(compilers, cmp, j) else Stripped(compilers[j]))
    {
      SortedGroupAt(compilers, g, cmp, order);
      var j := sorted[order].item;
      NumberStep(compilers, cmp, done, g, order, r);
      r := r[j := r[j]["$order" := Num(-(order as int))]];
      order := order + 1;
    }
    forall j | 0 <= j < |compilers|
      ensures Numbered(compilers, cmp, done, g, order, j) == Numbered(compilers, cmp, done + {g}, g, 0, j)
    {
    }
  }

  /** Lines 479-486: number every semver group. */
  method NumberGroups(compilers: seq<Compiler>, cmp: VersionCmp, copied: seq<Compiler>,
                      groups: map<string, seq<Keyed<nat>>>)
    returns (r: seq<Compiler>)
    requires |copied| == |compilers|
    requires forall j :: 0 <= j < |compilers| ==> copied[j] == Stripped(compilers[j])
    requires forall g :: g in groups ==> groups[g] == GroupMembers(compilers, g)
    requires forall j :: 0 <= j < |compilers| && IsSemVer(compilers[j]) ==> GroupKey(compilers[j]) in groups
    ensures |r| == |compilers|
    ensures forall j :: 0 <= j < |compilers| ==> r[j] == PublishedAt(compilers, cmp, j)
  {
    r := copied;
    var pending := groups.Keys;
    while pending != {}
      invariant pending <= groups.Keys && |r| == |compilers|
      invariant forall j :: 0 <= j < |compilers| ==>
        r[j] == (if Numbered(compilers, cmp, groups.Keys - pending, "", 0, j) then PublishedAt(compilers, cmp, j)
                 else Stripped(compilers[j]))
      decreases |pending|
    {
      var g :| g in pending;
      var done := groups.Keys - pending;
      forall j | 0 <= j < |compilers|
        ensures Numbered(compilers, cmp, done, "", 0, j) == Numbered(compilers, cmp, done, g, 0, j)
      {
      }
      r := NumberGroup(compilers, cmp, r, done, g, groups[g]);
      pending := pending - {g};
      forall j | 0 <= j < |compilers|
        ensures Numbered(compilers, cmp, done + {g}, g, 0, j) == Numbered(compilers, cmp, groups.Keys - pending, "", 0, j)
      {
      }
    }
    forall j | 0 <= j < |compilers|
      ensures r[j] == PublishedAt(compilers, cmp, j)
    {
      if IsSemVer(compilers[j]) {
        assert Numbered(compilers, cmp, groups.Keys - pending, "", 0, j);
      }
    }
  }

  /**
   * Within a group of N semver compilers the ranks are 0 .. N-1, each taken
   * by exactly one member, so the `$order`s are 0, -1, ..., -(N-1).
   */
  lemma GroupRanks(compilers: seq<Compiler>, cmp: VersionCmp, g: string)
    ensures var s := SortedGroup(compilers, g, cmp);
      && |s| == |GroupMembers(compilers, g)|
      && (forall i :: 0 <= i < |compilers| && IsSemVer(compilers[i]) && GroupKey(compilers[i]) == g ==>
            Rank(compilers, cmp, i) < |s|)
      && (forall i, j ::
            (0 <= i < |compilers| && 0 <= j < |compilers| && i != j
             && IsSemVer(compilers[i]) && GroupKey(compilers[i]) == g
             && IsSemVer(compilers[j]) && GroupKey(compilers[j]) == g) ==>
            Rank(compilers, cmp, i) != Rank(compilers, cmp, j))
      && (forall k :: 0 <= k < |s| ==>
            (s[k].item < |compilers| && IsSemVer(compilers[s[k].item]) && GroupKey(compilers[s[k].item]) == g
             && Rank(compilers, cmp, s[k].item) == k))
  {
    var s := SortedGroup(compilers, g, cmp);
    forall k | 0 <= k < |s|
      ensures s[k].item < |compilers| && IsSemVer(compilers[s[k].item]) && GroupKey(compilers[s[k].item]) == g
        && Rank(compilers, cmp, s[k].item) == k
    {
      SortedGroupAt(compilers, g, cmp, k);
    }
  }

  /**
   * With a comparison that is a total preorder, a member with a smaller rank
   * (a larger `$order`) never has a greater `semver`.
   */
  lemma RankSorted(compilers: seq<Compiler>, cmp: VersionCmp, i: nat, j: nat)
    requires IsTotalPreorder(cmp)
    requires i < |compilers| && j < |compilers| && IsSemVer(compilers[i]) && IsSemVer(compilers[j])
    requires GroupKey(compilers[i]) == GroupKey(compilers[j])
    requires Rank(compilers, cmp, i) < Rank(compilers, cmp, j)
    ensures cmp(SemverKey(compilers[i]), SemverKey(compilers[j])) <= 0
  {
    SortByIsSorted(GroupMembers(compilers, GroupKey(compilers[i])), cmp);
  }

  /**
   * Of two members that compare in order, the one listed first gets the
   * smaller rank: the sort is stable.
   */
  lemma RankStable(compilers: seq<Compiler>, cmp: VersionCmp, i: nat, j: nat)
    requires i < j < |compilers| && IsSemVer(compilers[i]) && IsSemVer(compilers[j])
    requires GroupKey(compilers[i]) == GroupKey(compilers[j])
    requires cmp(SemverKey(compilers[i]), SemverKey(compilers[j])) <= 0
    ensures Rank(compilers, cmp, i) < Rank(compilers, cmp, j)
  {
    var g := GroupKey(compilers[i]);
    var m := GroupMembers(compilers, g);
    GroupMembersAt(compilers, g);
    var a := Keyed(i, SemverKey(compilers[i]));
    var b := Keyed(j, SemverKey(compilers[j]));
    var p := IndexOf(m, a);
    var q := IndexOf(m, b);
    assert Distinct(m) by {
      forall k1, k2 | 0 <= k1 < k2 < |m| ensures m[k1] != m[k2] {
        assert m[k1].item < m[k2].item;
      }
    }
    SortByStable(m, cmp, p, q);
    SortedGroupDistinct(compilers, g, cmp);
    var s := SortedGroup(compilers, g, cmp);
    IndexOfDistinct(s, Rank(compilers, cmp, i));
    IndexOfDistinct(s, Rank(compilers, cmp, j));
  }

  /**
   * The group is sorted ascending and numbered downwards: of two members
   * whose versions differ, the older gets the smaller rank and so the
   * larger `$order`; the oldest gets 0 and the newest -(N-1).
   */
  lemma OlderRanksFirst(compilers: seq<Compiler>, cmp: VersionCmp, i: nat, j: nat)
    requires IsTotalPreorder(cmp)
    requires i < |compilers| && j < |compilers| && IsSemVer(compilers[i]) && IsSemVer(compilers[j])
    requires GroupKey(compilers[i]) == GroupKey(compilers[j])
    requires cmp(SemverKey(compilers[j]), SemverKey(compilers[i])) > 0
    ensures Rank(compilers, cmp, i) < Rank(compilers, cmp, j)
  {
    if Rank(compilers, cmp, j) < Rank(compilers, cmp, i) {
      RankSorted(compilers, cmp, j, i);
    }
  }

  /**
   * What a published compiler holds: every key of its description except
   * the forbidden ones, unchanged, plus `$order` exactly when it is semver.
   */
  lemma PublishedKeys(compilers: seq<Compiler>, cmp: VersionCmp, i: nat, k: string)
    requires i < |compilers|
    ensures var c := compilers[i]; var p := PublishedAt(compilers, cmp, i);
      && (k in p <==> (k in c && k !in ForbiddenKeys) || (k == "$order" && IsSemVer(c)))
      && (k in p && !(k == "$order" && IsSemVer(c)) ==> p[k] == c[k])
      && (IsSemVer(c) ==> p["$order"] == Num(-(Rank(compilers, cmp, i) as int)))
  {
  }
}
