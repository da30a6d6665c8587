/** Removing the Docker images that no whitelisted image needs. */
module DockerCleanup {
  import opened Wrappers
  import opened Graphs

  type ImageId(==, !new)

  /** An image, with the image it is built on, if any; it is whitelisted if it comes from a
      whitelisted repository. */
  datatype Image = Image(id: ImageId, parent: Option<ImageId>, whitelisted: bool)

  // ---- The map of children ----

  ghost function Known(images: seq<Image>): set<ImageId> {
    (set i | i in images :: i.id) + (set i | i in images && i.parent.Some? :: i.parent.value)
  }

  ghost function ChildrenOf(id: ImageId, images: seq<Image>): set<ImageId> {
    set i | i in images && i.parent == Some(id) :: i.id
  }

  ghost function Whitelisted(images: seq<Image>): set<ImageId> {
    set i | i in images && i.whitelisted :: i.id
  }

  /** From each known image to the images built directly on it. */
  ghost function ChildGraph(images: seq<Image>): Graph<ImageId> {
    map id | id in Known(images) :: ChildrenOf(id, images)
  }

  function SetDefault(children: Graph<ImageId>, id: ImageId): Graph<ImageId> {
    if id in children then children else children[id := {}]
  }

  method ChildMap(images: seq<Image>) returns (children: Graph<ImageId>, whitelisted: set<ImageId>)
    ensures children == ChildGraph(images)
    ensures whitelisted == Whitelisted(images)
  {
    children, whitelisted := map[], {};
    for i := 0 to |images|
      invariant IsChildGraph(children, images[..i])
      invariant whitelisted == Whitelisted(images[..i])
    {
      var image := images[i];
      if image.whitelisted {
        whitelisted := whitelisted + {image.id};
      }
      children := AddImage(children, image);
      OneMoreImage(images[..i], image);
      assert images[..i + 1] == images[..i] + [image];
    }
    assert images[..|images|] == images;
  }

  ghost predicate IsChildGraph(children: Graph<ImageId>, images: seq<Image>) {
    children.Keys == Known(images) && forall id :: Children(children, id) == ChildrenOf(id, images)
  }

  method AddImage(children: Graph<ImageId>, image: Image) returns (more: Graph<ImageId>)
    ensures more.Keys == children.Keys + {image.id} + (if image.parent.Some? then {image.parent.value} else {})
    ensures forall id ::
      Children(more, id) == Children(children, id) + if image.parent == Some(id) then {image.id} else {}
  {
    more := SetDefault(children, image.id);
    if image.parent != None {
      var parent := image.parent.value;
      more := SetDefault(more, parent);
      more := more[parent := more[parent] + {image.id}];
    }
  }

  lemma OneMoreImage(images: seq<Image>, image: Image)
    ensures var more := images + [image];
      && Known(more) == Known(images) + {image.id} + (if image.parent.Some? then {image.parent.value} else {})
      && Whitelisted(more) == Whitelisted(images) + (if image.whitelisted then {image.id} else {})
      && forall id ::
           ChildrenOf(id, more) == ChildrenOf(id, images) + if image.parent == Some(id) then {image.id} else {}
  {
  }

  // ---- What the whitelist protects ----

  /** A whitelisted image can be reached by child links. */
  ghost predicate Needed(children: Graph<ImageId>, whitelist: set<ImageId>, id: ImageId) {
    exists w :: w in whitelist && Reaches(children, id, w)
  }

  /** Takes out of the map the images that a whitelisted image needs, and adds them to the
      whitelist. */
  method ExcludeWhitelistedParents(whitelist: set<ImageId>, children: Graph<ImageId>)
      returns (excluded: set<ImageId>, left: Graph<ImageId>)
    ensures left.Keys == set id | id in children && !Needed(children, whitelist, id)
    ensures forall id :: id in left ==> left[id] == children[id]
    ensures excluded == whitelist + (children.Keys - left.Keys)
  {
    excluded, left := whitelist, children;
    WhitelistIsNeeded(children, whitelist);
    var parents := ParentsOf(excluded, left);
    while parents != {}
      invariant left.Keys <= children.Keys && forall id :: id in left ==> left[id] == children[id]
      invariant excluded == whitelist + (children.Keys - left.Keys)
      invariant forall id :: id in excluded ==> Needed(children, whitelist, id)
      invariant parents == ParentsOf(excluded, left)
      decreases left.Keys
    {
      ParentsAreNeeded(children, whitelist, excluded, left);
      assert parents <= left.Keys && left.Keys - parents < left.Keys;
      excluded, left := Exclude(parents, excluded, left);
      parents := ParentsOf(excluded, left);
    }
    forall id | id in left
      ensures !Needed(children, whitelist, id)
    {
      LeftIsNotNeeded(children, whitelist, excluded, left, id);
    }
  }

  /** The images of the map that are excluded, or have an excluded child. */
  function ParentsOf(excluded: set<ImageId>, left: Graph<ImageId>): set<ImageId> {
    set id | id in left && (!(left[id] !! excluded) || id in excluded)
  }

  method Exclude(parents: set<ImageId>, excluded: set<ImageId>, left: Graph<ImageId>)
      returns (excluded': set<ImageId>, left': Graph<ImageId>)
    ensures left' == left - parents
    ensures excluded' == excluded + parents
  {
    excluded', left' := excluded, left;
    var todo := parents;
    while todo != {}
      invariant todo <= parents
      invariant left' == left - (parents - todo)
      invariant excluded' == excluded + (parents - todo)
    {
      var parent :| parent in todo;
      left' := left' - {parent};
      excluded' := excluded' + {parent};
      todo := todo - {parent};
    }
  }

  lemma WhitelistIsNeeded(children: Graph<ImageId>, whitelist: set<ImageId>)
    ensures forall w :: w in whitelist ==> Needed(children, whitelist, w)
  {
    forall w | w in whitelist
      ensures Needed(children, whitelist, w)
    {
      ReachesOrLeads(children, w, w);
    }
  }

  lemma ParentsAreNeeded(children: Graph<ImageId>, whitelist: set<ImageId>, excluded: set<ImageId>,
                         left: Graph<ImageId>)
    requires Part(left, children)
    requires forall e :: e in excluded ==> Needed(children, whitelist, e)
    ensures forall id :: id in ParentsOf(excluded, left) ==> Needed(children, whitelist, id)
  {
    forall id | id in ParentsOf(excluded, left)
      ensures Needed(children, whitelist, id)
    {
      if id !in excluded {
        ParentIsNeeded(children, whitelist, excluded, id);
      }
    }
  }

  lemma ParentIsNeeded(children: Graph<ImageId>, whitelist: set<ImageId>, excluded: set<ImageId>, id: ImageId)
    requires id in children && !(children[id] !! excluded)
    requires forall e :: e in excluded ==> Needed(children, whitelist, e)
    ensures Needed(children, whitelist, id)
  {
    var c :| c in children[id] && c in excluded;
    var w :| w in whitelist && Reaches(children, c, w);
    LeadsFirst(children, id, w);
    ReachesOrLeads(children, id, w);
  }

  /** When no image is left to exclude, nothing that is left reaches the whitelist. */
  lemma LeftIsNotNeeded(children: Graph<ImageId>, whitelist: set<ImageId>, excluded: set<ImageId>,
                        left: Graph<ImageId>, id: ImageId)
    requires whitelist <= excluded && children.Keys <= left.Keys + excluded && id in left
    requires forall i :: i in left ==> i in children && left[i] == children[i]
    requires ParentsOf(excluded, left) == {}
    ensures !Needed(children, whitelist, id)
  {
    forall w, path | w in whitelist && PathBetween(children, path, id, w)
      ensures false
    {
      PathStaysLeft(children, excluded, left, path);
    }
  }

  lemma {:induction false} PathStaysLeft(children: Graph<ImageId>, excluded: set<ImageId>, left: Graph<ImageId>,
                                         path: seq<ImageId>)
    requires children.Keys <= left.Keys + excluded && IsPath(children, path) && path[0] in left
    requires forall i :: i in left ==> i in children && left[i] == children[i]
    requires ParentsOf(excluded, left) == {}
    ensures path[|path| - 1] !in excluded
    decreases |path|
  {
    assert path[0] !in ParentsOf(excluded, left);
    if |path| > 1 {
      assert path[1] in children[path[0]] && path[1] !in excluded;
      if path[1] in left {
        PathStaysLeft(children, excluded, left, path[1..]);
      } else {
        assert |path| > 2 ==> path[2] in Children(children, path[1]);
      }
    }
  }

  // ---- Removal ----

  /** The images that are left after one pass: those with children among all of them. */
  ghost function Pass(left: Graph<ImageId>): Graph<ImageId> {
    map id | id in left && !(left[id] !! left.Keys) :: left[id]
  }

  ghost function Passes(left: Graph<ImageId>, n: nat): Graph<ImageId> {
    if n == 0 then left else Passes(Pass(left), n - 1)
  }

  lemma {:induction false} OneMorePass(left: Graph<ImageId>, n: nat)
    ensures Passes(left, n + 1) == Pass(Passes(left, n))
  {
    if n > 0 {
      OneMorePass(Pass(left), n - 1);
    }
  }

  /** One pass over the images that are left, in any order, removes those without children
      among them; each is removed once, and after its children. */
  method RemoveChildless(children: Graph<ImageId>) returns (removed: seq<ImageId>, left: Graph<ImageId>)
    ensures left == Pass(children)
    ensures forall id :: id in removed <==> id in children.Keys - left.Keys
    ensures forall i, j :: 0 <= i < j < |removed| ==> removed[i] != removed[j]
  {
    removed, left := [], children;
    var parents := children.Keys;
    var todo := parents;
    while todo != {}
      invariant todo <= parents == children.Keys
      invariant left.Keys <= parents
      invariant forall id :: id in parents ==> (id in left <==> id in todo || !(children[id] !! parents))
      invariant forall id :: id in left ==> left[id] == children[id]
      invariant forall id :: id in removed <==> id in parents - left.Keys
      invariant forall i, j :: 0 <= i < j < |removed| ==> removed[i] != removed[j]
    {
      var parent :| parent in todo;
      todo := todo - {parent};
      assert parent in left;
      if left[parent] !! parents {
        assert parent !in removed;
        removed := removed + [parent];
        left := left - {parent};
      }
    }
  }

  /** Each image is removed exactly once, and only after its children. */
  ghost predicate ChildrenFirst(removed: seq<ImageId>, children: Graph<ImageId>) {
    && (forall i, j :: 0 <= i < j < |removed| ==> removed[i] != removed[j])
    && (forall i, c :: 0 <= i < |removed| && c in Children(children, removed[i]) && c in children ==>
          c in removed[..i])
  }

  /** Just the images no longer left were removed, children first. */
  ghost predicate Removing(children: Graph<ImageId>, left: Graph<ImageId>, removed: seq<ImageId>) {
    && Part(left, children)
    && (forall id :: id in removed <==> id in children.Keys - left.Keys)
    && ChildrenFirst(removed, children)
  }

  ghost predicate Part(left: Graph<ImageId>, children: Graph<ImageId>) {
    forall id :: id in left ==> id in children && left[id] == children[id]
  }

  method SafeImageCleanup(children: Graph<ImageId>) returns (removed: seq<ImageId>, ghost passes: nat)
    requires Acyclic(children)
    ensures Passes(children, passes) == map[] && passes <= |children|
    ensures forall id :: id in removed <==> id in children
    ensures ChildrenFirst(removed, children)
  {
    removed, passes := [], 0;
    var left := children;
    while left != map[]
      invariant left == Passes(children, passes) && passes + |left| <= |children|
      invariant Removing(children, left, removed)
      decreases |left|
    {
      PassShrinks(children, left);
      var more, rest := RemoveChildless(left);
      OneMorePass(children, passes);
      passes := passes + 1;
      PassKeepsOrder(children, left, removed, more);
      removed := removed + more;
      left := rest;
    }
  }

  lemma SomethingIsChildless(children: Graph<ImageId>, left: Graph<ImageId>)
    requires Acyclic(children) && left != map[]
    requires Part(left, children)
    ensures exists id :: id in left && left[id] !! left.Keys
  {
    if forall id :: id in left ==> !(left[id] !! left.Keys) {
      assert left.Keys != {} && Stuck(children, left.Keys);
      var n := StuckSetHasCycle(children, left.Keys);
    }
  }

  lemma PassShrinks(children: Graph<ImageId>, left: Graph<ImageId>)
    requires Acyclic(children) && left != map[]
    requires Part(left, children)
    ensures Pass(left).Keys < left.Keys && |Pass(left)| < |left|
  {
    SomethingIsChildless(children, left);
    assert |left| == |left.Keys| && |Pass(left)| == |Pass(left).Keys|;
    assert |left.Keys| == |Pass(left).Keys| + |left.Keys - Pass(left).Keys|;
    var id :| id in left.Keys - Pass(left).Keys;
  }

  lemma PassKeepsOrder(children: Graph<ImageId>, left: Graph<ImageId>, removed: seq<ImageId>, more: seq<ImageId>)
    requires Removing(children, left, removed)
    requires forall id :: id in more <==> id in left.Keys - Pass(left).Keys
    requires forall i, j :: 0 <= i < j < |more| ==> more[i] != more[j]
    ensures Removing(children, Pass(left), removed + more)
  {
    var all := removed + more;
    forall i, c | 0 <= i < |all| && c in Children(children, all[i]) && c in children
      ensures c in all[..i]
    {
      if i < |removed| {
        assert c in removed[..i] && all[..i] == removed[..i];
      } else {
        assert all[i] in more && c in removed;
        assert removed <= all[..i];
      }
    }
    forall i, j | 0 <= i < j < |all|
      ensures all[i] != all[j]
    {
      if i < |removed| <= j {
        assert all[i] in removed && all[j] in more;
      }
    }
  }

  // ---- When the passes come to an end ----

  /** An image that leads back to itself still does so after a pass. */
  lemma CycleSurvives(left: Graph<ImageId>, id: ImageId)
    requires Leads(left, id, id)
    ensures Leads(Pass(left), id, id)
  {
    var path :| PathBetween(left, path, id, id) && |path| >= 2;
    forall k | 0 <= k < |path| - 1
      ensures path[k + 1] in Children(Pass(left), path[k])
    {
      var next := if k + 1 == |path| - 1 then 0 else k + 1;
      assert path[k + 1] == path[next] && path[next + 1] in Children(left, path[next]);
      assert path[k + 1] in left[path[k]] && path[k + 1] in left.Keys;
    }
    assert PathBetween(Pass(left), path, id, id);
  }

  lemma {:induction false} CycleStays(left: Graph<ImageId>, id: ImageId, passes: nat)
    requires Leads(left, id, id)
    ensures Leads(Passes(left, passes), id, id)
  {
    if passes > 0 {
      CycleSurvives(left, id);
      CycleStays(Pass(left), id, passes - 1);
    }
  }

  lemma {:induction false} AcyclicEnds(left: Graph<ImageId>) returns (passes: nat)
    requires Acyclic(left)
    ensures passes <= |left| && Passes(left, passes) == map[]
    decreases |left|
  {
    passes := 0;
    if left != map[] {
      PassShrinks(left, left);
      PartIsAcyclic(left, Pass(left));
      var more := AcyclicEnds(Pass(left));
      passes := more + 1;
    }
  }

  /** The passes come to an end, within as many of them as there are images, exactly if the
      links among the images form no cycle. */
  lemma PassesEndIff(children: Graph<ImageId>)
    ensures Acyclic(children) <==> exists n: nat :: Passes(children, n) == map[]
    ensures Acyclic(children) ==> exists n: nat :: n <= |children| && Passes(children, n) == map[]
  {
    if Acyclic(children) {
      var n := AcyclicEnds(children);
    } else {
      var id :| Leads(children, id, id);
      forall n: nat
        ensures Passes(children, n) != map[]
      {
        CycleStays(children, id, n);
        LeadsFirst(map[], id, id);
      }
    }
  }

  /** The whole cleanup removes exactly the images from which no whitelisted image can be
      reached by child links; among those images the links must not form a cycle. */
  method Cleanup(images: seq<Image>) returns (removed: seq<ImageId>)
    requires forall id :: Leads(ChildGraph(images), id, id) ==> Needed(ChildGraph(images), Whitelisted(images), id)
    ensures forall id :: id in removed <==>
              id in Known(images) && !Needed(ChildGraph(images), Whitelisted(images), id)
    ensures ChildrenFirst(removed, ChildGraph(images))
  {
    var children, whitelisted := ChildMap(images);
    var excluded, left := ExcludeWhitelistedParents(whitelisted, children);
    PartIsAcyclic(children, left);
    ghost var passes;
    removed, passes := SafeImageCleanup(left);
    forall i, c | 0 <= i < |removed| && c in Children(children, removed[i]) && c in children
      ensures c in removed[..i]
    {
      assert removed[i] in left;
      ChildIsNotNeeded(children, whitelisted, removed[i], c);
      assert c in Children(left, removed[i]) && c in left;
    }
  }

  lemma PartIsAcyclic(children: Graph<ImageId>, left: Graph<ImageId>)
    requires forall id :: id in left ==> id in children && left[id] == children[id] && !Leads(children, id, id)
    ensures Acyclic(left)
  {
    forall n
      ensures !Leads(left, n, n)
    {
      LeadsFirst(left, n, n);
    }
  }

  lemma ChildIsNotNeeded(children: Graph<ImageId>, whitelist: set<ImageId>, id: ImageId, c: ImageId)
    requires id in children && c in children[id] && !Needed(children, whitelist, id)
    ensures !Needed(children, whitelist, c)
  {
    if w :| w in whitelist && Reaches(children, c, w) {
      LeadsFirst(children, id, w);
      ReachesOrLeads(children, id, w);
    }
  }
}
