/** The files modified between two commits, upstream sources and symbolic links included. */
module UpstreamFiles {
  import opened Wrappers
  import opened Graphs

  type Path(==, !new)
  type FileHash(==, !new)

  datatype GitFile = GitFile(fileType: nat, hash: FileHash)

  type Files = map<Path, GitFile>

  // The mode of a symbolic link in git, octal 120000.
  const SYMLINK: nat := 0xA000

  function Entry(files: Files, path: Path): Option<GitFile> {
    if path in files then Some(files[path]) else None
  }

  // ---- Layers of files ----

  ghost function Layered(layers: seq<Files>): Files {
    if layers == [] then map[] else Layered(layers[..|layers| - 1]) + layers[|layers| - 1]
  }

  /** A path shows the file of the last layer that has it, and nothing if no layer does. */
  lemma {:induction false} LastLayerShows(layers: seq<Files>, path: Path)
    ensures Entry(Layered(layers), path).None? <==> forall i :: 0 <= i < |layers| ==> path !in layers[i]
    ensures forall i :: 0 <= i < |layers| && path in layers[i] && (forall j :: i < j < |layers| ==> path !in layers[j])
              ==> Entry(Layered(layers), path) == Some(layers[i][path])
  {
    if layers != [] {
      var last := |layers| - 1;
      var lower := layers[..last];
      LastLayerShows(lower, path);
      assert forall i :: 0 <= i < last ==> lower[i] == layers[i];
    }
  }

  /** The upstream sources in order, and on top of them the repository's own files. */
  method LsAllFiles(upstream: seq<Files>, own: Files) returns (files: Files)
    ensures files == Layered(upstream + [own])
  {
    files := map[];
    for i := 0 to |upstream|
      invariant files == Layered(upstream[..i])
    {
      files := files + upstream[i];
      assert upstream[..i + 1][..i] == upstream[..i];
    }
    assert upstream[..|upstream|] == upstream;
    files := files + own;
    assert (upstream + [own])[..|upstream|] == upstream;
  }

  function FilesDiff(oldFiles: Files, newFiles: Files): (paths: set<Path>)
    ensures forall path :: path in paths <==> Entry(oldFiles, path) != Entry(newFiles, path)
  {
    (oldFiles.Keys - newFiles.Keys) + (newFiles.Keys - oldFiles.Keys)
    + set path | path in oldFiles.Keys * newFiles.Keys && oldFiles[path] != newFiles[path]
  }

  // ---- Links ----

  predicate IsLink(files: Files, path: Path) {
    path in files && files[path].fileType == SYMLINK
  }

  ghost function LinksTo(files: Files, target: Path -> Path, path: Path): set<Path> {
    set link | link in files && IsLink(files, link) && target(link) == path
  }

  /** The inverted map of links, from each target to the links that point at it. The target
      of a link is what the link says, normalized. */
  method GetFilesToLinksMap(files: Files, target: Path -> Path) returns (fileToLinks: Graph<Path>)
    ensures forall path :: Children(fileToLinks, path) == LinksTo(files, target, path)
  {
    fileToLinks := map[];
    var links := set path | path in files && IsLink(files, path);
    var todo := links;
    while todo != {}
      invariant todo <= links
      invariant forall path :: Children(fileToLinks, path) == LinksTo(files, target, path) - todo
    {
      var link :| link in todo;
      todo := todo - {link};
      var path := target(link);
      fileToLinks := fileToLinks[path := Children(fileToLinks, path) + {link}];
    }
  }

  /** From the first path, each one is a link that points at the next. */
  ghost predicate LinkChain(files: Files, target: Path -> Path, chain: seq<Path>) {
    chain != [] && forall i :: 0 <= i < |chain| - 1 ==> IsLink(files, chain[i]) && target(chain[i]) == chain[i + 1]
  }

  /** Following links from one path, zero or more times, arrives at the other. */
  ghost predicate Follows(files: Files, target: Path -> Path, from: Path, to: Path) {
    exists chain :: LinkChain(files, target, chain) && chain[0] == from && chain[|chain| - 1] == to
  }

  /** Following links from the path, one or more times, comes back to it. */
  ghost predicate OnLoop(files: Files, target: Path -> Path, path: Path) {
    IsLink(files, path) && Follows(files, target, target(path), path)
  }

  ghost predicate Inverts(links: Graph<Path>, files: Files, target: Path -> Path) {
    forall path :: Children(links, path) == LinksTo(files, target, path)
  }

  function Reverse<T>(s: seq<T>): seq<T> {
    seq(|s|, i requires 0 <= i < |s| => s[|s| - 1 - i])
  }

  lemma ChainsAreReversedPaths(links: Graph<Path>, files: Files, target: Path -> Path, chain: seq<Path>)
    requires Inverts(links, files, target)
    ensures LinkChain(files, target, chain) <==> IsPath(links, Reverse(chain))
  {
    var path, n := Reverse(chain), |chain|;
    if LinkChain(files, target, chain) {
      forall i | 0 <= i < n - 1
        ensures path[i + 1] in Children(links, path[i])
      {
        var j := n - 2 - i;
        assert IsLink(files, chain[j]) && target(chain[j]) == chain[j + 1];
        assert chain[j] in LinksTo(files, target, chain[j + 1]);
      }
    }
    if IsPath(links, path) {
      forall j | 0 <= j < n - 1
        ensures IsLink(files, chain[j]) && target(chain[j]) == chain[j + 1]
      {
        var i := n - 2 - j;
        assert path[i + 1] in Children(links, path[i]);
        assert chain[j] in LinksTo(files, target, chain[j + 1]);
      }
    }
  }

  lemma FollowsIsReaching(links: Graph<Path>, files: Files, target: Path -> Path, from: Path, to: Path)
    requires Inverts(links, files, target)
    ensures Follows(files, target, from, to) <==> Reaches(links, to, from)
  {
    if chain :| LinkChain(files, target, chain) && chain[0] == from && chain[|chain| - 1] == to {
      ChainsAreReversedPaths(links, files, target, chain);
      assert PathBetween(links, Reverse(chain), to, from);
    }
    if path :| PathBetween(links, path, to, from) {
      var chain := Reverse(path);
      assert Reverse(chain) == path;
      ChainsAreReversedPaths(links, files, target, chain);
    }
  }

  // ---- The recursion over links ----

  ghost function Nodes<N(!new)>(g: Graph<N>): set<N> {
    set n, c | n in g && c in g[n] :: c
  }

  /** What one or more links lead to. */
  ghost function Below<N(!new)>(g: Graph<N>, n: N): set<N> {
    set c | c in Nodes(g) && Leads(g, n, c)
  }

  lemma BelowIsAll<N(!new)>(g: Graph<N>, n: N, c: N)
    ensures c in Below(g, n) <==> Leads(g, n, c)
  {
    if path :| PathBetween(g, path, n, c) && |path| >= 2 {
      var last := path[|path| - 2];
      assert path[|path| - 2 + 1] in Children(g, last);
    }
  }

  /** The node leads to no node that leads back to itself. */
  ghost predicate Loopless<N(!new)>(g: Graph<N>, n: N) {
    forall c :: Reaches(g, n, c) ==> !Leads(g, c, c)
  }

  lemma ChildIsLower<N(!new)>(g: Graph<N>, n: N, c: N)
    requires Loopless(g, n) && c in Children(g, n)
    ensures Loopless(g, c) && Below(g, c) < Below(g, n)
  {
    assert PathBetween(g, [n, c], n, c) && Leads(g, n, c);
    ReachesOrLeads(g, n, c);
    forall d | Reaches(g, c, d)
      ensures Reaches(g, n, d) && Leads(g, n, d)
    {
      ReachesTransitive(g, n, c, d);
      LeadsFirst(g, n, d);
    }
    forall d | d in Below(g, c)
      ensures d in Below(g, n)
    {
      ReachesOrLeads(g, c, d);
      BelowIsAll(g, n, d);
    }
    BelowIsAll(g, n, c);
    BelowIsAll(g, c, c);
  }

  /** All links to a file, those through other links included: just what the inverted links
      lead to. */
  function GetLinksToFile(file: Path, links: Graph<Path>): (found: set<Path>)
    requires Loopless(links, file)
    ensures forall path :: path in found <==> Leads(links, file, path)
    decreases Below(links, file)
  {
    if file !in links then
      NoChildrenLeadNowhere(links, file);
      {}
    else
      ChildrenAreLower(links, file);
      var found := links[file] + set link, path | link in links[file] && path in GetLinksToFile(link, links) :: path;
      LeadsThroughChildren(links, file);
      assert forall link, path :: link in links[file] ==>
        (path in GetLinksToFile(link, links) <==> Leads(links, link, path));
      found
  }

  lemma NoChildrenLeadNowhere(links: Graph<Path>, file: Path)
    requires file !in links
    ensures forall path :: !Leads(links, file, path)
  {
    forall path
      ensures !Leads(links, file, path)
    {
      LeadsFirst(links, file, path);
    }
  }

  lemma ChildrenAreLower(links: Graph<Path>, file: Path)
    requires Loopless(links, file)
    ensures forall link :: link in Children(links, file) ==>
              Loopless(links, link) && Below(links, link) < Below(links, file)
  {
    forall link | link in Children(links, file)
      ensures Loopless(links, link) && Below(links, link) < Below(links, file)
    {
      ChildIsLower(links, file, link);
    }
  }

  lemma LeadsThroughChildren(links: Graph<Path>, file: Path)
    ensures forall path :: Leads(links, file, path) <==>
              || path in Children(links, file)
              || exists link :: link in Children(links, file) && Leads(links, link, path)
  {
    forall path
      ensures Leads(links, file, path) <==>
                || path in Children(links, file)
                || exists link :: link in Children(links, file) && Leads(links, link, path)
    {
      LeadsFirst(links, file, path);
      forall link
        ensures Reaches(links, link, path) <==> link == path || Leads(links, link, path)
      {
        ReachesOrLeads(links, link, path);
      }
    }
  }

  // ---- Loops ----

  /** A chain of links that visits a path twice ends on a loop. */
  lemma RepeatingChainEndsOnLoop(files: Files, target: Path -> Path, chain: seq<Path>, i: nat, j: nat)
    requires LinkChain(files, target, chain) && i < j < |chain| && chain[i] == chain[j]
    ensures OnLoop(files, target, chain[|chain| - 1])
    decreases |chain| - j
  {
    if j < |chain| - 1 {
      assert target(chain[i]) == chain[i + 1] && target(chain[j]) == chain[j + 1];
      RepeatingChainEndsOnLoop(files, target, chain, i + 1, j + 1);
    } else {
      var rest := chain[i + 1..];
      forall k | 0 <= k < |rest| - 1
        ensures IsLink(files, rest[k]) && target(rest[k]) == rest[k + 1]
      {
        assert rest[k] == chain[i + 1 + k] && rest[k + 1] == chain[i + 1 + k + 1];
      }
      assert LinkChain(files, target, rest) && rest[0] == target(chain[i]) && rest[|rest| - 1] == chain[j];
    }
  }

  /** The file leads to itself exactly if following links from it comes back to it. */
  lemma LooplessIff(links: Graph<Path>, files: Files, target: Path -> Path, file: Path)
    requires Inverts(links, files, target)
    ensures Loopless(links, file) <==> !OnLoop(files, target, file)
  {
    OnLoopIsLeading(links, files, target, file);
    ReachesOrLeads(links, file, file);
    if c :| Reaches(links, file, c) && Leads(links, c, c) {
      LoopAboveIsLoop(links, files, target, file, c);
    }
  }

  /** A chain of calls of the recursion for a file: each for a link to the path of the one
      before. */
  ghost predicate CallChain(links: Graph<Path>, file: Path, calls: seq<Path>) {
    IsPath(links, calls) && calls[0] == file
  }

  ghost predicate HasCallChain(links: Graph<Path>, file: Path, length: nat) {
    exists calls :: CallChain(links, file, calls) && |calls| == length
  }

  /** The recursion for a file goes on without end exactly if following links from the file
      comes back to it: then there are chains of calls of every length, and otherwise none
      with more calls than the file and the paths that lead to it. */
  lemma CallsEndIff(links: Graph<Path>, files: Files, target: Path -> Path, file: Path)
    requires Inverts(links, files, target)
    ensures OnLoop(files, target, file) ==> forall n: nat :: n > 0 ==> HasCallChain(links, file, n)
    ensures !OnLoop(files, target, file) ==>
              forall calls :: CallChain(links, file, calls) ==> |calls| <= |Below(links, file)| + 1
  {
    LooplessIff(links, files, target, file);
    if OnLoop(files, target, file) {
      OnLoopIsLeading(links, files, target, file);
      var loop := CycleIsStuck(links, file);
      forall n: nat | n > 0
        ensures HasCallChain(links, file, n)
      {
        var calls := WalkWithin(links, loop, file, n - 1);
        assert CallChain(links, file, calls);
      }
    } else {
      forall calls | CallChain(links, file, calls)
        ensures |calls| <= |Below(links, file)| + 1
      {
        LooplessChainIsShort(links, file, calls);
      }
    }
  }

  lemma LooplessChainIsShort(links: Graph<Path>, file: Path, calls: seq<Path>)
    requires Loopless(links, file) && CallChain(links, file, calls)
    ensures |calls| <= |Below(links, file)| + 1
  {
    var rest := calls[1..];
    forall k | 0 <= k < |rest|
      ensures rest[k] in Below(links, file)
    {
      PathPart(links, calls, 0, k + 1);
      BelowIsAll(links, file, rest[k]);
    }
    if |rest| > |Below(links, file)| {
      var i, j := Pigeonhole(rest, Below(links, file));
      PathPart(links, calls, i + 1, j + 1);
      BelowIsAll(links, file, rest[i]);
      ReachesOrLeads(links, file, rest[i]);
      assert false;
    }
  }

  lemma OnLoopIsLeading(links: Graph<Path>, files: Files, target: Path -> Path, path: Path)
    requires Inverts(links, files, target)
    ensures OnLoop(files, target, path) <==> Leads(links, path, path)
  {
    // Leading back ends with a link to the first path; following starts with it.
    if OnLoop(files, target, path) {
      FollowsIsReaching(links, files, target, target(path), path);
      var p :| PathBetween(links, p, path, target(path));
      assert path in LinksTo(files, target, target(path));
      PathGrows(links, p, path);
      assert PathBetween(links, p + [path], path, path);
    }
    if p :| PathBetween(links, p, path, path) && |p| >= 2 {
      var before := p[|p| - 2];
      assert p[|p| - 2 + 1] in Children(links, before);
      assert path in LinksTo(files, target, before);
      PathPart(links, p, 0, |p| - 2);
      FollowsIsReaching(links, files, target, before, path);
    }
  }

  /** If a file is reached from a loop, it is on the loop. */
  lemma LoopAboveIsLoop(links: Graph<Path>, files: Files, target: Path -> Path, file: Path, c: Path)
    requires Inverts(links, files, target)
    requires Reaches(links, file, c) && Leads(links, c, c)
    ensures OnLoop(files, target, file)
  {
    var p :| PathBetween(links, p, file, c);
    var q :| PathBetween(links, q, c, c) && |q| >= 2;
    var path := p + q[1..];
    PathsJoin(links, p, q, file, c, c);
    var chain, n := Reverse(path), |path|;
    assert Reverse(chain) == path;
    ChainsAreReversedPaths(links, files, target, chain);
    assert path[|p| - 1] == c && path[n - 1] == c;
    assert chain[0] == c && chain[n - |p|] == c;
    RepeatingChainEndsOnLoop(files, target, chain, 0, n - |p|);
  }

  // ---- Modified files ----

  ghost predicate Changed(oldLayers: seq<Files>, newLayers: seq<Files>, path: Path) {
    Entry(Layered(oldLayers), path) != Entry(Layered(newLayers), path)
  }

  /** The files that differ between two commits and, if asked for, all links to them. Of a
      changed file that is on a loop of links, the links would be looked up without end. */
  method GetModifiedFiles(oldUpstream: seq<Files>, oldOwn: Files, newUpstream: seq<Files>, newOwn: Files,
                          target: Path -> Path, resolveLinks: bool) returns (modified: set<Path>)
    requires resolveLinks ==>
      forall path :: Changed(oldUpstream + [oldOwn], newUpstream + [newOwn], path) ==>
        !OnLoop(Layered(newUpstream + [newOwn]), target, path)
    ensures !resolveLinks ==>
      forall path :: path in modified <==> Changed(oldUpstream + [oldOwn], newUpstream + [newOwn], path)
    ensures resolveLinks ==>
      forall path :: path in modified <==>
        exists to :: Follows(Layered(newUpstream + [newOwn]), target, path, to)
                     && Changed(oldUpstream + [oldOwn], newUpstream + [newOwn], to)
  {
    var oldFiles := LsAllFiles(oldUpstream, oldOwn);
    var newFiles := LsAllFiles(newUpstream, newOwn);
    modified := FilesDiff(oldFiles, newFiles);
    if resolveLinks {
      var links := GetFilesToLinksMap(newFiles, target);
      modified := WithLinks(modified, links, newFiles, target);
    }
  }

  method WithLinks(changed: set<Path>, links: Graph<Path>, ghost files: Files, ghost target: Path -> Path)
      returns (modified: set<Path>)
    requires Inverts(links, files, target)
    requires forall path :: path in changed ==> !OnLoop(files, target, path)
    ensures forall path :: path in modified <==> exists to :: Follows(files, target, path, to) && to in changed
  {
    modified := changed;
    var todo := changed;
    while todo != {}
      invariant todo <= changed
      invariant forall path :: path in modified <==>
        path in changed || exists to :: to in changed - todo && Leads(links, to, path)
    {
      var file :| file in todo;
      LooplessIff(links, files, target, file);
      modified := modified + GetLinksToFile(file, links);
      todo := todo - {file};
    }
    forall path
      ensures path in modified <==> exists to :: Follows(files, target, path, to) && to in changed
    {
      LinkedToChanged(links, files, target, changed, path);
    }
  }

  lemma LinkedToChanged(links: Graph<Path>, files: Files, target: Path -> Path, changed: set<Path>, path: Path)
    requires Inverts(links, files, target)
    ensures (path in changed || exists to :: to in changed && Leads(links, to, path)) <==>
              exists to :: Follows(files, target, path, to) && to in changed
  {
    forall to
      ensures Follows(files, target, path, to) <==> to == path || Leads(links, to, path)
    {
      FollowsIsReaching(links, files, target, path, to);
      ReachesOrLeads(links, to, path);
    }
  }
}
