/** Enumerating a GitHub repository: one recursive listing, or the pruned breadth-first walk
    that repairs a truncated one.  The main result says exactly when both select the same files. */
module GithubTree {
  import opened Options

  // ---------------------------------------------------------------- repositories

  /** The entries of one directory, in the order of the answer: a file, a subdirectory (which
      may come without a sha, and whose own listing may be truncated) or a submodule. */
  datatype Listing =
    | End
    | Blob(name: string, next: Listing)
    | Tree(name: string, sha: bool, truncated: bool, entries: Listing, next: Listing)
    | Other(next: Listing)

  /** A directory waiting in the queue of the walk. */
  datatype Dir = Dir(path: string, truncated: bool, entries: Listing)

  function Normalize(s: string): (r: string)
    ensures |r| == |s|
  {
    seq(|s|, i requires 0 <= i < |s| => if s[i] == '\\' then '/' else s[i])
  }

  function RawJoin(prefix: string, name: string): string { if prefix == "" then name else prefix + "/" + name }

  function Join(prefix: string, name: string): string { Normalize(RawJoin(prefix, name)) }

  /** `treeBlobPaths` of one directory. */
  function Blobs(path: string, l: Listing): seq<string> {
    match l
    case End => []
    case Blob(name, next) => [Join(path, name)] + Blobs(path, next)
    case Tree(_, _, _, _, next) => Blobs(path, next)
    case Other(next) => Blobs(path, next)
  }

  function Children(path: string, l: Listing): seq<Dir> {
    match l
    case End => []
    case Blob(_, next) => Children(path, next)
    case Tree(name, _, truncated, entries, next) => [Dir(Join(path, name), truncated, entries)] + Children(path, next)
    case Other(next) => Children(path, next)
  }

  /** Every file path below a directory, normalized name by name. */
  function Files(path: string, l: Listing): seq<string>
    decreases l
  {
    match l
    case End => []
    case Blob(name, next) => [Join(path, name)] + Files(path, next)
    case Tree(name, _, _, entries, next) => Files(Join(path, name), entries) + Files(path, next)
    case Other(next) => Files(path, next)
  }

  /** The paths that one recursive listing answers with, and how many entries it has. */
  function RawFiles(path: string, l: Listing): seq<string>
    decreases l
  {
    match l
    case End => []
    case Blob(name, next) => [RawJoin(path, name)] + RawFiles(path, next)
    case Tree(name, _, _, entries, next) => RawFiles(RawJoin(path, name), entries) + RawFiles(path, next)
    case Other(next) => RawFiles(path, next)
  }

  function NormalizeAll(paths: seq<string>): seq<string> {
    if paths == [] then [] else [Normalize(paths[0])] + NormalizeAll(paths[1..])
  }

  function Width(l: Listing): nat {
    match l
    case End => 0
    case Blob(_, next) => 1 + Width(next)
    case Tree(_, _, _, _, next) => 1 + Width(next)
    case Other(next) => 1 + Width(next)
  }

  function AllEntries(l: Listing): nat {
    match l
    case End => 0
    case Blob(_, next) => 1 + AllEntries(next)
    case Tree(_, _, _, entries, next) => 1 + AllEntries(entries) + AllEntries(next)
    case Other(next) => 1 + AllEntries(next)
  }

  // ---------------------------------------------------------------- normalizing early or late

  lemma NormalizeConcat(a: string, b: string)
    ensures Normalize(a + b) == Normalize(a) + Normalize(b)
  {
  }

  lemma NormalizeTwice(a: string)
    ensures Normalize(Normalize(a)) == Normalize(a)
  {
  }

  lemma JoinNormal(path: string, name: string)
    ensures Join(Normalize(path), name) == Normalize(RawJoin(path, name))
    ensures Normalize(Join(path, name)) == Join(path, name)
  {
    NormalizeTwice(RawJoin(path, name));
    if path != "" {
      NormalizeConcat(path + "/", name);
      NormalizeConcat(path, "/");
      NormalizeConcat(Normalize(path) + "/", name);
      NormalizeConcat(Normalize(path), "/");
      NormalizeTwice(path);
    }
  }

  lemma {:induction false} NormalizeAllConcat(a: seq<string>, b: seq<string>)
    ensures NormalizeAll(a + b) == NormalizeAll(a) + NormalizeAll(b)
  {
    if a == [] {
      assert a + b == b;
    } else {
      assert (a + b)[1..] == a[1..] + b;
      NormalizeAllConcat(a[1..], b);
    }
  }

  /** The recursive listing normalizes whole paths, the walk one name at a time. */
  lemma {:induction false} ListingIsFiles(path: string, l: Listing)
    ensures NormalizeAll(RawFiles(path, l)) == Files(Normalize(path), l)
    decreases l
  {
    match l
    case End =>
    case Blob(name, next) =>
      ListingIsFiles(path, next);
      JoinNormal(path, name);
    case Tree(name, _, _, entries, next) =>
      ListingIsFiles(RawJoin(path, name), entries);
      ListingIsFiles(path, next);
      JoinNormal(path, name);
      NormalizeAllConcat(RawFiles(RawJoin(path, name), entries), RawFiles(path, next));
    case Other(next) => ListingIsFiles(path, next);
  }

  // ---------------------------------------------------------------- which files are wanted

  /** The caller's normalized, nonempty paths; an empty list asks for the default files. */
  type Want = seq<string>

  /** What the model needs of lower-casing: it works on each side of a slash separately. */
  ghost predicate Splits(lower: string -> string) {
    forall a, b :: lower(a + "/" + b) == lower(a) + "/" + lower(b)
  }

  predicate StartsWith(s: string, p: string) { |p| <= |s| && s[..|p|] == p }

  predicate EndsWith(s: string, p: string) { |p| <= |s| && s[|s| - |p|..] == p }

  predicate IsMarkdown(lower: string -> string, path: string) { EndsWith(lower(Normalize(path)), ".md") }

  predicate IncludePath(lower: string -> string, path: string) {
    var normalized := Normalize(path);
    && IsMarkdown(lower, normalized)
    && (|| lower(normalized) in {"readme.md", "contributing.md", "roadmap.md"}
        || StartsWith(lower(normalized), ".github/")
        || '/' !in normalized)
  }

  predicate Wanted(lower: string -> string, want: Want, path: string) {
    if want != [] then (exists e | e in want :: lower(e) == lower(path)) && IsMarkdown(lower, path)
    else IncludePath(lower, path)
  }

  /** `subtreeCanContainWantedPaths`. */
  predicate CanContain(lower: string -> string, want: Want, dir: string) {
    if want != [] then exists e | e in want :: StartsWith(lower(e), lower(dir) + "/")
    else StartsWith(lower(dir) + "/", ".github/")
  }

  /** Below a directory, only the default names under `.github/` are wanted. */
  lemma DefaultBelow(lower: string -> string, dir: string, rest: string)
    requires Splits(lower) && IncludePath(lower, dir + "/" + rest) && Normalize(dir + "/" + rest) == dir + "/" + rest
    ensures StartsWith(lower(dir + "/" + rest), ".github/")
  {
    var path := dir + "/" + rest;
    assert path[|dir|] == '/';
    assert lower(path)[|lower(dir)|] == '/';
    assert forall s: string | s in {"readme.md", "contributing.md", "roadmap.md"} :: '/' !in s;
  }

  /** Which files are wanted: markdown, by the end of its lower-cased path; with paths asked
      for, those that differ in case only, and else those at the top or below `.github/`: the
      three names in the default filter add nothing, since none of them has a slash. */
  lemma WantedExact(lower: string -> string, want: Want, path: string)
    requires Splits(lower)
    ensures var p := Normalize(path); var low := lower(p);
      Wanted(lower, want, path) <==>
        && |low| >= 3 && low[|low| - 3..] == ".md"
        && if want != [] then exists e :: e in want && lower(e) == lower(path)
           else '/' !in p || (|low| >= 8 && low[..8] == ".github/")
  {
    var p := Normalize(path);
    NormalizeTwice(path);
    if i :| 0 <= i < |p| && p[i] == '/' {
      assert p == p[..i] + "/" + p[i + 1..];
      assert lower(p)[|lower(p[..i])|] == '/';
      assert forall s: string | s in {"readme.md", "contributing.md", "roadmap.md"} :: '/' !in s;
    }
  }

  /** A wanted file below a directory keeps the directory in the walk. */
  lemma PruneSafe(lower: string -> string, want: Want, dir: string, rest: string)
    requires Splits(lower) && Wanted(lower, want, dir + "/" + rest)
    requires Normalize(dir + "/" + rest) == dir + "/" + rest
    ensures CanContain(lower, want, dir)
  {
    hide IncludePath, IsMarkdown;
    var low := lower(dir + "/" + rest);
    assert low == lower(dir) + "/" + lower(rest);
    var under := lower(dir) + "/";
    assert low[..|under|] == under;
    if want == [] {
      DefaultBelow(lower, dir, rest);
      assert low[|under| - 1] == '/';
      assert forall i | 0 <= i < 7 :: low[..8][i] != '/';
      assert under[..8] == low[..8];
    }
  }

  // ---------------------------------------------------------------- the walk

  datatype Error = RequestLimit | EntryLimit | TruncatedTree | MissingSha | FileCountLimit

  datatype Limits = Limits(maxRequests: nat, maxEntries: nat, maxFiles: nat)

  /** Requests counted and entries received so far. */
  datatype Budget = Budget(requests: nat, entries: nat)

  datatype Fetched = Answer(budget: Budget) | Refused(error: Error, budget: Budget)

  /** `fetchTreePayload`: the request is counted before it is made. */
  function Fetch(b: Budget, lim: Limits, entries: nat): Fetched {
    var b1 := b.(requests := b.requests + 1);
    if b1.requests > lim.maxRequests then Refused(RequestLimit, b1)
    else
      var b2 := b1.(entries := b1.entries + entries);
      if b2.entries > lim.maxEntries then Refused(EntryLimit, b2) else Answer(b2)
  }

  /** The subdirectories to queue; none when one of them has no sha. */
  function Entered(lower: string -> string, want: Want, path: string, l: Listing): Option<seq<Dir>> {
    match l
    case End => Some([])
    case Blob(_, next) => Entered(lower, want, path, next)
    case Other(next) => Entered(lower, want, path, next)
    case Tree(name, sha, truncated, entries, next) =>
      if !CanContain(lower, want, Join(path, name)) then Entered(lower, want, path, next)
      else if !sha then None
      else
        match Entered(lower, want, path, next)
        case None => None
        case Some(more) => Some([Dir(Join(path, name), truncated, entries)] + more)
  }

  datatype Outcome = Listed(paths: seq<string>, budget: Budget) | Failed(error: Error, budget: Budget)

  /** The directories a queue stands for; what shrinks with each turn of the walk. */
  function Trees(l: Listing): nat {
    match l
    case End => 0
    case Blob(_, next) => Trees(next)
    case Tree(_, _, _, entries, next) => 1 + Trees(entries) + Trees(next)
    case Other(next) => Trees(next)
  }

  function Weight(queue: seq<Dir>): nat {
    if queue == [] then 0 else 1 + Trees(queue[0].entries) + Weight(queue[1..])
  }

  lemma {:induction false} WeightConcat(a: seq<Dir>, b: seq<Dir>)
    ensures Weight(a + b) == Weight(a) + Weight(b)
  {
    if a == [] {
      assert a + b == b;
    } else {
      assert (a + b)[1..] == a[1..] + b;
      WeightConcat(a[1..], b);
    }
  }

  lemma {:induction false} EnteredWeight(lower: string -> string, want: Want, path: string, l: Listing)
    ensures var e := Entered(lower, want, path, l); e.Some? ==> Weight(e.value) <= Trees(l)
  {
    match l
    case End =>
    case Blob(_, next) => EnteredWeight(lower, want, path, next);
    case Other(next) => EnteredWeight(lower, want, path, next);
    case Tree(name, sha, truncated, entries, next) =>
      EnteredWeight(lower, want, path, next);
      var e := Entered(lower, want, path, next);
      if e.Some? { WeightConcat([Dir(Join(path, name), truncated, entries)], e.value); }
  }

  /** `walkTreeBlobPaths`. */
  function Walk(lower: string -> string, want: Want, lim: Limits, queue: seq<Dir>, visited: set<string>,
                paths: seq<string>, b: Budget): Outcome
    decreases Weight(queue)
  {
    if queue == [] then Listed(paths, b)
    else
      var dir, rest := queue[0], queue[1..];
      if dir.path in visited then Walk(lower, want, lim, rest, visited, paths, b)
      else
        match Fetch(b, lim, Width(dir.entries))
        case Refused(e, b') => Failed(e, b')
        case Answer(b') =>
          if dir.truncated then Failed(TruncatedTree, b')
          else
            match Entered(lower, want, dir.path, dir.entries)
            case None => Failed(MissingSha, b')
            case Some(dirs) =>
              EnteredWeight(lower, want, dir.path, dir.entries);
              WeightConcat(rest, dirs);
              Walk(lower, want, lim, rest + dirs, visited + {dir.path}, paths + Blobs(dir.path, dir.entries), b')
  }

  // ---------------------------------------------------------------- the walk finds every wanted file

  /** Subdirectories have names. */
  predicate Named(l: Listing) {
    match l
    case End => true
    case Blob(_, next) => Named(next)
    case Other(next) => Named(next)
    case Tree(name, _, _, entries, next) => name != "" && Named(entries) && Named(next)
  }

  /** `d` is a directory below the one listed by `l` at `path`. */
  ghost predicate Below(path: string, l: Listing, d: Dir)
    decreases l
  {
    match l
    case End => false
    case Blob(_, next) => Below(path, next, d)
    case Other(next) => Below(path, next, d)
    case Tree(name, _, truncated, entries, next) =>
      d == Dir(Join(path, name), truncated, entries) || Below(Join(path, name), entries, d) || Below(path, next, d)
  }

  ghost predicate InRepo(root: Dir, d: Dir) { d == root || Below(root.path, root.entries, d) }

  /** Directories with the same normalized path hold the same wanted files. */
  ghost predicate Agreeing(lower: string -> string, want: Want, root: Dir) {
    forall a, b, f | InRepo(root, a) && InRepo(root, b) && a.path == b.path && Wanted(lower, want, f) && f in Files(a.path, a.entries) ::
      f in Files(b.path, b.entries)
  }

  lemma {:induction false} FilesCases(path: string, l: Listing, f: string)
    ensures f in Files(path, l) <==> f in Blobs(path, l) || exists c :: c in Children(path, l) && f in Files(c.path, c.entries)
  {
    match l
    case End =>
    case Blob(_, next) => FilesCases(path, next, f);
    case Other(next) => FilesCases(path, next, f);
    case Tree(name, _, truncated, entries, next) =>
      FilesCases(path, next, f);
      var d := Dir(Join(path, name), truncated, entries);
      assert forall c :: c in Children(path, l) <==> c == d || c in Children(path, next);
      if f in Files(d.path, d.entries) { assert d in Children(path, l); }
  }

  /** Every path in a directory starts with the directory's. */
  lemma {:induction false} FileUnder(path: string, l: Listing, f: string) returns (rest: string)
    requires path != "" && Normalize(path) == path && f in Files(path, l)
    ensures f == path + "/" + rest && Normalize(f) == f
    decreases l
  {
    match l
    case Blob(name, next) =>
      if f == Join(path, name) { rest := JoinUnder(path, name); JoinNormal(path, name); } else { rest := FileUnder(path, next, f); }
    case Other(next) => rest := FileUnder(path, next, f);
    case Tree(name, _, _, entries, next) =>
      if f in Files(path, next) {
        rest := FileUnder(path, next, f);
      } else {
        var mid := JoinUnder(path, name);
        JoinNormal(path, name);
        var more := FileUnder(Join(path, name), entries, f);
        rest := mid + "/" + more;
        assert path + "/" + rest == (path + "/" + mid) + "/" + more;
      }
  }

  lemma JoinUnder(path: string, name: string) returns (rest: string)
    requires path != "" && Normalize(path) == path
    ensures Join(path, name) == path + "/" + rest && |rest| == |name|
  {
    rest := Normalize(name);
    NormalizeConcat(path + "/", name);
    NormalizeConcat(path, "/");
  }

  /** A child's path is normalized, and longer than its directory's. */
  lemma {:induction false} ChildDeeper(path: string, l: Listing, c: Dir)
    requires Normalize(path) == path && Named(l) && c in Children(path, l)
    ensures Normalize(c.path) == c.path && |c.path| > |path| && Named(c.entries)
  {
    match l
    case Blob(_, next) => ChildDeeper(path, next, c);
    case Other(next) => ChildDeeper(path, next, c);
    case Tree(name, _, truncated, entries, next) =>
      if c in Children(path, next) {
        ChildDeeper(path, next, c);
      } else {
        JoinNormal(path, name);
        if path != "" { var rest := JoinUnder(path, name); }
      }
  }

  lemma {:induction false} ChildBelow(path: string, l: Listing, c: Dir)
    requires c in Children(path, l)
    ensures Below(path, l, c)
    decreases l
  {
    match l
    case Blob(_, next) => ChildBelow(path, next, c);
    case Other(next) => ChildBelow(path, next, c);
    case Tree(name, _, truncated, entries, next) =>
      if c in Children(path, next) { ChildBelow(path, next, c); }
  }

  lemma {:induction false} BelowTrans(path: string, l: Listing, d: Dir, e: Dir)
    requires Below(path, l, d) && Below(d.path, d.entries, e)
    ensures Below(path, l, e)
    decreases l
  {
    match l
    case Blob(_, next) => BelowTrans(path, next, d, e);
    case Other(next) => BelowTrans(path, next, d, e);
    case Tree(name, _, truncated, entries, next) =>
      if Below(path, next, d) { BelowTrans(path, next, d, e); }
      else if d != Dir(Join(path, name), truncated, entries) { BelowTrans(Join(path, name), entries, d, e); }
  }

  lemma {:induction false} BelowNamed(path: string, l: Listing, d: Dir)
    requires Normalize(path) == path && Named(l) && Below(path, l, d)
    ensures Normalize(d.path) == d.path && Named(d.entries)
    decreases l
  {
    match l
    case Blob(_, next) => BelowNamed(path, next, d);
    case Other(next) => BelowNamed(path, next, d);
    case Tree(name, _, truncated, entries, next) =>
      JoinNormal(path, name);
      if Below(path, next, d) { BelowNamed(path, next, d); }
      else if d != Dir(Join(path, name), truncated, entries) { BelowNamed(Join(path, name), entries, d); }
  }

  ghost predicate Repo(lower: string -> string, want: Want, root: Dir) {
    root.path == "" && Named(root.entries) && Agreeing(lower, want, root)
  }

  lemma RepoDir(root: Dir, d: Dir)
    requires root.path == "" && Named(root.entries) && InRepo(root, d)
    ensures Normalize(d.path) == d.path && Named(d.entries)
  {
    assert Normalize("") == "";
    if d != root { BelowNamed(root.path, root.entries, d); }
  }

  // ---------------------------------------------------------------- which directories the walk visits

  /** The subdirectories that may hold a wanted path, with or without a sha. */
  function Kids(lower: string -> string, want: Want, path: string, l: Listing): seq<Dir> {
    match l
    case End => []
    case Blob(_, next) => Kids(lower, want, path, next)
    case Other(next) => Kids(lower, want, path, next)
    case Tree(name, _, truncated, entries, next) =>
      (if CanContain(lower, want, Join(path, name)) then [Dir(Join(path, name), truncated, entries)] else [])
      + Kids(lower, want, path, next)
  }

  lemma {:induction false} EnteredKids(lower: string -> string, want: Want, path: string, l: Listing)
    ensures var e := Entered(lower, want, path, l); e.Some? ==> e.value == Kids(lower, want, path, l)
  {
    match l
    case End =>
    case Blob(_, next) => EnteredKids(lower, want, path, next);
    case Other(next) => EnteredKids(lower, want, path, next);
    case Tree(_, _, _, _, next) => EnteredKids(lower, want, path, next);
  }

  /** A way down from the root, by positions among those subdirectories. */
  type Place = seq<nat>

  function Up(x: Place): Place
    requires x != []
  {
    x[..|x| - 1]
  }

  function At(lower: string -> string, want: Want, root: Dir, x: Place): Option<Dir>
    decreases |x|
  {
    if x == [] then Some(root)
    else
      match At(lower, want, root, Up(x))
      case None => None
      case Some(d) =>
        var kids := Kids(lower, want, d.path, d.entries);
        if x[|x| - 1] < |kids| then Some(kids[x[|x| - 1]]) else None
  }

  /** Breadth-first order: shorter ways first, ways of one length by their first difference. */
  predicate Sooner(x: Place, y: Place)
    decreases |x|
  {
    || |x| < |y|
    || (|x| == |y| > 0 && (Sooner(Up(x), Up(y)) || (Up(x) == Up(y) && x[|x| - 1] < y[|y| - 1])))
  }

  /** A place below an owner; an owner is the first such place with its normalized path. */
  ghost predicate Reached(lower: string -> string, want: Want, root: Dir, x: Place)
    decreases |x|, 0
  {
    At(lower, want, root, x).Some? && (x == [] || Owner(lower, want, root, Up(x)))
  }

  ghost predicate Owner(lower: string -> string, want: Want, root: Dir, x: Place)
    decreases |x|, 1
  {
    && Reached(lower, want, root, x)
    && forall y | |y| <= |x| && Sooner(y, x) && Reached(lower, want, root, y) ::
         At(lower, want, root, y).value.path != At(lower, want, root, x).value.path
  }

  /** The file is listed in a directory that owns its path. */
  ghost predicate Owned(lower: string -> string, want: Want, root: Dir, f: string) {
    exists x :: Owner(lower, want, root, x) && f in BlobsAt(lower, want, root, x)
  }

  function BlobsAt(lower: string -> string, want: Want, root: Dir, x: Place): seq<string> {
    var d := At(lower, want, root, x);
    if d.None? then [] else Blobs(d.value.path, d.value.entries)
  }

  lemma {:induction false} SoonerTrans(x: Place, y: Place, z: Place)
    requires Sooner(x, y) && Sooner(y, z)
    ensures Sooner(x, z) && |x| <= |y| <= |z|
    decreases |x|
  {
    if |x| == |z| > 0 {
      if Sooner(Up(x), Up(y)) && Sooner(Up(y), Up(z)) { SoonerTrans(Up(x), Up(y), Up(z)); }
    }
  }

  lemma {:induction false} NotSooner(x: Place)
    ensures !Sooner(x, x)
    decreases |x|
  {
    if x != [] { NotSooner(Up(x)); }
  }

  lemma KidSooner(x: Place, y: Place, i: nat, j: nat)
    requires Sooner(x, y) || (x == y && i < j)
    ensures Sooner(x + [i], y + [j])
  {
    assert Up(x + [i]) == x && Up(y + [j]) == y;
  }

  // ---------------------------------------------------------------- the walk visits the owners

  /** The places of the queue, and those already taken from it. */
  ghost predicate Placed(lower: string -> string, want: Want, root: Dir, queue: seq<Dir>, places: seq<Place>, done: set<Place>) {
    Aligned(lower, want, root, queue, places) && Ordered(places, done) && Closed(lower, want, root, places, done)
  }

  ghost predicate Aligned(lower: string -> string, want: Want, root: Dir, queue: seq<Dir>, places: seq<Place>) {
    && |places| == |queue|
    && forall i | 0 <= i < |places| :: Reached(lower, want, root, places[i]) && At(lower, want, root, places[i]) == Some(queue[i])
  }

  ghost predicate Ordered(places: seq<Place>, done: set<Place>) {
    && (forall i, j | 0 <= i < j < |places| :: Sooner(places[i], places[j]))
    && (forall x, i | x in done && 0 <= i < |places| :: Sooner(x, places[i]))
    && (forall i | 0 <= i < |places| && places[i] != [] :: Up(places[i]) in done)
    && ([] in done || [] in places)
  }

  ghost predicate Closed(lower: string -> string, want: Want, root: Dir, places: seq<Place>, done: set<Place>) {
    && (forall x | x in done :: Reached(lower, want, root, x))
    && (forall x | x != [] && Reached(lower, want, root, x) && Up(x) in done :: x in done || x in places)
  }

  ghost predicate Visited(lower: string -> string, want: Want, root: Dir, visited: set<string>, done: set<Place>) {
    && (forall x | x in done && At(lower, want, root, x).Some? :: At(lower, want, root, x).value.path in visited)
    && (forall p | p in visited :: exists x :: x in done && Reached(lower, want, root, x) && At(lower, want, root, x).value.path == p)
  }

  /** Some subdirectory that may hold a wanted path has no sha. */
  predicate Lacks(lower: string -> string, want: Want, path: string, l: Listing) {
    match l
    case End => false
    case Blob(_, next) => Lacks(lower, want, path, next)
    case Other(next) => Lacks(lower, want, path, next)
    case Tree(name, sha, _, _, next) => (!sha && CanContain(lower, want, Join(path, name))) || Lacks(lower, want, path, next)
  }

  lemma {:induction false} LacksMeans(lower: string -> string, want: Want, path: string, l: Listing)
    ensures Lacks(lower, want, path, l) <==> Entered(lower, want, path, l) == None
  {
    match l
    case End =>
    case Blob(_, next) => LacksMeans(lower, want, path, next);
    case Other(next) => LacksMeans(lower, want, path, next);
    case Tree(_, _, _, _, next) => LacksMeans(lower, want, path, next);
  }

  ghost predicate Truncated(lower: string -> string, want: Want, root: Dir, x: Place) {
    At(lower, want, root, x).Some? && At(lower, want, root, x).value.truncated
  }

  ghost predicate Unnamed(lower: string -> string, want: Want, root: Dir, x: Place) {
    At(lower, want, root, x).Some? && Lacks(lower, want, At(lower, want, root, x).value.path, At(lower, want, root, x).value.entries)
  }

  /** Owners, in breadth-first order. */
  ghost predicate Trail(lower: string -> string, want: Want, root: Dir, trail: seq<Place>) {
    && (forall x | x in trail :: Owner(lower, want, root, x))
    && (forall i, j | 0 <= i < j < |trail| :: Sooner(trail[i], trail[j]))
  }

  /** They can all be read. */
  ghost predicate Clear(lower: string -> string, want: Want, root: Dir, trail: seq<Place>) {
    forall x | x in trail :: !Truncated(lower, want, root, x) && !Unnamed(lower, want, root, x)
  }

  function BlobsOf(lower: string -> string, want: Want, root: Dir, trail: seq<Place>): seq<string> {
    if trail == [] then [] else BlobsOf(lower, want, root, trail[..|trail| - 1]) + BlobsAt(lower, want, root, trail[|trail| - 1])
  }

  function WidthAt(lower: string -> string, want: Want, root: Dir, x: Place): nat {
    var d := At(lower, want, root, x);
    if d.None? then 0 else Width(d.value.entries)
  }

  function WidthOf(lower: string -> string, want: Want, root: Dir, trail: seq<Place>): nat {
    if trail == [] then 0 else WidthOf(lower, want, root, trail[..|trail| - 1]) + WidthAt(lower, want, root, trail[|trail| - 1])
  }

  /** What reading these owners costs, one request and all its entries each. */
  function Spending(lower: string -> string, want: Want, root: Dir, b: Budget, trail: seq<Place>): Budget {
    Budget(b.requests + |trail|, b.entries + WidthOf(lower, want, root, trail))
  }

  /** The owners among the places taken from the queue are read, in this order. */
  ghost predicate Trailed(lower: string -> string, want: Want, root: Dir, trail: seq<Place>, done: set<Place>) {
    && Trail(lower, want, root, trail) && Clear(lower, want, root, trail)
    && forall x :: x in trail <==> x in done && Owner(lower, want, root, x)
  }

  /** Everything reached sooner than the queue has been taken from it. */
  lemma {:induction false} SoonerDone(lower: string -> string, want: Want, root: Dir, queue: seq<Dir>, places: seq<Place>,
                                      done: set<Place>, x: Place)
    requires Placed(lower, want, root, queue, places, done) && Reached(lower, want, root, x)
    requires places != [] ==> Sooner(x, places[0])
    ensures x in done
    decreases |x|
  {
    if x != [] {
      var up := Up(x);
      assert Sooner(up, x);
      if places != [] { SoonerTrans(up, x, places[0]); }
      SoonerDone(lower, want, root, queue, places, done, up);
    }
    if x in places {
      var i :| 0 <= i < |places| && places[i] == x;
      if i > 0 { SoonerTrans(x, places[0], x); }
      NotSooner(x);
    }
  }

  /** The first place of the queue is an owner exactly when its path was not visited. */
  lemma FirstOwns(lower: string -> string, want: Want, root: Dir, queue: seq<Dir>, visited: set<string>, places: seq<Place>, done: set<Place>)
    requires Placed(lower, want, root, queue, places, done) && Visited(lower, want, root, visited, done) && queue != []
    ensures Owner(lower, want, root, places[0]) <==> queue[0].path !in visited
  {
    hide At, Sooner;
    var x := places[0];
    if queue[0].path in visited {
      var y :| y in done && Reached(lower, want, root, y) && At(lower, want, root, y).value.path == queue[0].path;
      SoonerLength(y, x);
    } else {
      forall y | |y| <= |x| && Sooner(y, x) && Reached(lower, want, root, y)
        ensures At(lower, want, root, y).value.path != queue[0].path
      {
        SoonerDone(lower, want, root, queue, places, done, y);
      }
    }
  }

  lemma SoonerLength(x: Place, y: Place)
    requires Sooner(x, y)
    ensures |x| <= |y|
  {
  }

  function KidPlaces(x: Place, n: nat): (r: seq<Place>)
    ensures |r| == n && forall k | 0 <= k < n :: r[k] == x + [k]
  {
    seq(n, k => x + [k])
  }

  lemma SkipPlaced(lower: string -> string, want: Want, root: Dir, queue: seq<Dir>, places: seq<Place>, done: set<Place>)
    requires Placed(lower, want, root, queue, places, done) && queue != [] && !Owner(lower, want, root, places[0])
    ensures Placed(lower, want, root, queue[1..], places[1..], done + {places[0]})
  {
    hide At, Sooner, Owner, Reached;
    var x := places[0];
    assert places == [x] + places[1..];
    forall c | c != [] && Reached(lower, want, root, c) && Up(c) in done + {x} ensures c in done + {x} || c in places[1..] {
      assert Up(c) != x by { ReachedUp(lower, want, root, c); }
    }
  }

  lemma ReachedUp(lower: string -> string, want: Want, root: Dir, c: Place)
    requires Reached(lower, want, root, c) && c != []
    ensures Owner(lower, want, root, Up(c))
  {
  }

  /** The places of an owner's kids. */
  lemma KidReached(lower: string -> string, want: Want, root: Dir, x: Place, c: Place)
    requires Owner(lower, want, root, x) && At(lower, want, root, x).Some? && c != [] && Up(c) == x
    ensures var d := At(lower, want, root, x).value; var kids := Kids(lower, want, d.path, d.entries);
      && (Reached(lower, want, root, c) <==> c[|x|] < |kids|)
      && (c[|x|] < |kids| ==> At(lower, want, root, c) == Some(kids[c[|x|]]))
  {
    hide Sooner;
  }

  /** What waits in the queue comes before the kids of its first place. */
  lemma QueueBeforeKids(places: seq<Place>, done: set<Place>, i: nat, k: nat)
    requires Ordered(places, done) && i < |places|
    ensures Sooner(places[i], places[0] + [k])
  {
    var x, e := places[0], places[i];
    assert i > 0 && e != [] ==> Sooner(Up(e), x);
    assert |x| < |x + [k]|;
    if i > 0 && e != [] {
      hide Sooner;
      KidSooner(Up(e), x, e[|e| - 1], k);
      assert Up(e) + [e[|e| - 1]] == e;
    }
  }

  lemma VisitOrdered(places: seq<Place>, done: set<Place>, n: nat)
    requires Ordered(places, done) && places != []
    ensures Ordered(places[1..] + KidPlaces(places[0], n), done + {places[0]})
  {
    hide Sooner;
    var x, rest, more := places[0], places[1..], KidPlaces(places[0], n);
    var next := rest + more;
    assert places == [x] + rest;
    forall i, j | 0 <= i < j < |next| ensures Sooner(next[i], next[j]) {
      if j >= |rest| {
        if i < |rest| { QueueBeforeKids(places, done, i + 1, j - |rest|); } else { KidSooner(x, x, i - |rest|, j - |rest|); }
      }
    }
    forall y, j | y in done + {x} && 0 <= j < |next| ensures Sooner(y, next[j]) {
      if j >= |rest| {
        QueueBeforeKids(places, done, 0, j - |rest|);
        if y != x { SoonerTrans(y, x, next[j]); }
      }
    }
  }

  lemma VisitAligned(lower: string -> string, want: Want, root: Dir, x: Place, d: Dir)
    requires Owner(lower, want, root, x) && At(lower, want, root, x) == Some(d)
    ensures var kids := Kids(lower, want, d.path, d.entries); Aligned(lower, want, root, kids, KidPlaces(x, |kids|))
  {
    hide At, Sooner, Owner, Reached, Kids;
    var kids := Kids(lower, want, d.path, d.entries);
    forall k | 0 <= k < |kids| ensures Reached(lower, want, root, x + [k]) && At(lower, want, root, x + [k]) == Some(kids[k]) {
      KidReached(lower, want, root, x, x + [k]);
    }
  }

  lemma VisitClosed(lower: string -> string, want: Want, root: Dir, d: Dir, places: seq<Place>, done: set<Place>, n: nat)
    requires Closed(lower, want, root, places, done) && places != [] && Owner(lower, want, root, places[0])
    requires Reached(lower, want, root, places[0]) && At(lower, want, root, places[0]) == Some(d) && n == |Kids(lower, want, d.path, d.entries)|
    ensures Closed(lower, want, root, places[1..] + KidPlaces(places[0], n), done + {places[0]})
  {
    hide At, Sooner, Owner, Reached, Kids;
    var x := places[0];
    var next, done' := places[1..] + KidPlaces(x, n), done + {x};
    assert places == [x] + places[1..];
    forall c | c != [] && Reached(lower, want, root, c) && Up(c) in done' ensures c in done' || c in next {
      if Up(c) == x {
        KidReached(lower, want, root, x, c);
        assert c == x + [c[|x|]] == KidPlaces(x, n)[c[|x|]];
      }
    }
  }

  lemma VisitPlaced(lower: string -> string, want: Want, root: Dir, queue: seq<Dir>, places: seq<Place>, done: set<Place>, kids: seq<Dir>)
    requires Placed(lower, want, root, queue, places, done) && queue != [] && Owner(lower, want, root, places[0])
    requires kids == Kids(lower, want, queue[0].path, queue[0].entries)
    ensures Placed(lower, want, root, queue[1..] + kids, places[1..] + KidPlaces(places[0], |kids|), done + {places[0]})
  {
    hide At, Sooner, Owner, Reached, Kids, Ordered, Closed;
    VisitOrdered(places, done, |kids|);
    VisitAligned(lower, want, root, places[0], queue[0]);
    VisitClosed(lower, want, root, queue[0], places, done, |kids|);
  }

  lemma TakenVisited(lower: string -> string, want: Want, root: Dir, visited: set<string>, done: set<Place>, x: Place, path: string)
    requires Visited(lower, want, root, visited, done) && Reached(lower, want, root, x)
    requires At(lower, want, root, x).Some? && At(lower, want, root, x).value.path == path
    ensures Visited(lower, want, root, visited + {path}, done + {x})
  {
    hide At, Owner;
    forall p | p in visited + {path}
      ensures exists y :: y in done + {x} && Reached(lower, want, root, y) && At(lower, want, root, y).value.path == p
    {
      if p in visited && p != path {
        var y :| y in done && Reached(lower, want, root, y) && At(lower, want, root, y).value.path == p;
      } else {
        assert x in done + {x};
      }
    }
  }

  /** One more place taken from the queue. */
  lemma TakenTrailed(lower: string -> string, want: Want, root: Dir, trail: seq<Place>, done: set<Place>, x: Place)
    requires Trailed(lower, want, root, trail, done) && forall y | y in done :: Sooner(y, x)
    ensures !Owner(lower, want, root, x) ==> Trailed(lower, want, root, trail, done + {x})
    ensures Owner(lower, want, root, x) ==> Trail(lower, want, root, trail + [x])
    ensures Owner(lower, want, root, x) && !Truncated(lower, want, root, x) && !Unnamed(lower, want, root, x) ==>
      Trailed(lower, want, root, trail + [x], done + {x})
  {
    hide Owner, Sooner, Truncated, Unnamed;
    forall i | 0 <= i < |trail| ensures Sooner(trail[i], x) { assert trail[i] in trail; }
  }

  lemma OneMore(lower: string -> string, want: Want, root: Dir, b: Budget, trail: seq<Place>, x: Place, d: Dir)
    requires At(lower, want, root, x) == Some(d)
    ensures BlobsOf(lower, want, root, trail + [x]) == BlobsOf(lower, want, root, trail) + Blobs(d.path, d.entries)
    ensures Spending(lower, want, root, b, trail + [x]) ==
      Budget(b.requests + |trail| + 1, Spending(lower, want, root, b, trail).entries + Width(d.entries))
  {
    hide At, Blobs, Width;
    assert (trail + [x])[..|trail|] == trail;
  }

  /** What a walk comes to, by the owners it read: all of them, none of which stopped it; or
      some in breadth-first order, the last of which did. */
  ghost predicate Explained(lower: string -> string, want: Want, lim: Limits, root: Dir, b: Budget, r: Outcome, trail: seq<Place>) {
    && Trail(lower, want, root, trail)
    && match r
       case Listed(paths, after) =>
         && (forall x :: x in trail <==> Owner(lower, want, root, x)) && Clear(lower, want, root, trail)
         && paths == BlobsOf(lower, want, root, trail) && after == Spending(lower, want, root, b, trail)
       case Failed(error, after) =>
         && trail != []
         && var last := trail[|trail| - 1];
         && after.requests == Spending(lower, want, root, b, trail).requests
         && Clear(lower, want, root, trail[..|trail| - 1])
         && match error
            case RequestLimit => after.requests > lim.maxRequests
            case EntryLimit => Spending(lower, want, root, b, trail).entries > lim.maxEntries
            case TruncatedTree => Truncated(lower, want, root, last)
            case MissingSha => Unnamed(lower, want, root, last)
            case FileCountLimit => false
  }

  lemma {:induction false} WalkOwners(lower: string -> string, want: Want, lim: Limits, root: Dir, queue: seq<Dir>, visited: set<string>,
                                      b: Budget, places: seq<Place>, done: set<Place>, trail: seq<Place>) returns (all: seq<Place>)
    requires Placed(lower, want, root, queue, places, done) && Visited(lower, want, root, visited, done)
    requires Trailed(lower, want, root, trail, done)
    ensures Explained(lower, want, lim, root, b,
      Walk(lower, want, lim, queue, visited, BlobsOf(lower, want, root, trail), Spending(lower, want, root, b, trail)), all)
    decreases Weight(queue)
  {
    hide Placed, Visited, Trailed, Entered, Kids, Blobs, BlobsOf, Spending, Fetch, At, Owner, Reached, BlobsAt, Explained, Width;
    if queue == [] {
      AllTrailed(lower, want, lim, root, b, places, done, trail);
      all := trail;
    } else {
      var dir, rest := queue[0], queue[1..];
      var x := FirstPlace(lower, want, root, queue, places, done);
      FirstOwns(lower, want, root, queue, visited, places, done);
      TakenVisited(lower, want, root, visited, done, x, dir.path);
      TakenTrailed(lower, want, root, trail, done, x);
      if dir.path in visited {
        assert visited + {dir.path} == visited;
        SkipPlaced(lower, want, root, queue, places, done);
        all := WalkOwners(lower, want, lim, root, rest, visited, b, places[1..], done + {x}, trail);
      } else {
        var fetched := Fetch(Spending(lower, want, root, b, trail), lim, Width(dir.entries));
        var entered := Entered(lower, want, dir.path, dir.entries);
        OneMore(lower, want, root, b, trail, x, dir);
        ReadPlace(lower, want, lim, root, b, trail, done, x, dir);
        if fetched.Answer? && !dir.truncated && entered.Some? {
          EnteredKids(lower, want, dir.path, dir.entries);
          VisitPlaced(lower, want, root, queue, places, done, entered.value);
          EnteredWeight(lower, want, dir.path, dir.entries);
          WeightConcat(rest, entered.value);
          all := WalkOwners(lower, want, lim, root, rest + entered.value, visited + {dir.path}, b,
                            places[1..] + KidPlaces(x, |entered.value|), done + {x}, trail + [x]);
        } else {
          all := trail + [x];
        }
      }
    }
  }

  /** Reading one owner: what it costs, and what it fails with. */
  lemma ReadPlace(lower: string -> string, want: Want, lim: Limits, root: Dir, b: Budget, trail: seq<Place>, done: set<Place>, x: Place, d: Dir)
    requires Trailed(lower, want, root, trail, done) && Trail(lower, want, root, trail + [x]) && At(lower, want, root, x) == Some(d)
    ensures match Fetch(Spending(lower, want, root, b, trail), lim, Width(d.entries))
      case Refused(e, after) => Explained(lower, want, lim, root, b, Failed(e, after), trail + [x])
      case Answer(after) =>
        && after == Spending(lower, want, root, b, trail + [x])
        && (d.truncated ==> Explained(lower, want, lim, root, b, Failed(TruncatedTree, after), trail + [x]))
        && (Entered(lower, want, d.path, d.entries) == None ==>
              Explained(lower, want, lim, root, b, Failed(MissingSha, after), trail + [x]))
        && (!d.truncated && Entered(lower, want, d.path, d.entries).Some? ==> !Truncated(lower, want, root, x) && !Unnamed(lower, want, root, x))
  {
    hide At, Owner, Sooner, Entered, Lacks, WidthOf, Width, BlobsOf;
    OneMore(lower, want, root, b, trail, x, d);
    LacksMeans(lower, want, d.path, d.entries);
    assert (trail + [x])[..|trail|] == trail && (trail + [x])[|trail|] == x;
  }

  lemma FirstPlace(lower: string -> string, want: Want, root: Dir, queue: seq<Dir>, places: seq<Place>, done: set<Place>) returns (x: Place)
    requires Placed(lower, want, root, queue, places, done) && queue != []
    ensures places != [] && x == places[0] && Reached(lower, want, root, x) && At(lower, want, root, x) == Some(queue[0])
    ensures forall y | y in done :: Sooner(y, x)
  {
    x := places[0];
  }

  lemma AllTrailed(lower: string -> string, want: Want, lim: Limits, root: Dir, b: Budget, places: seq<Place>, done: set<Place>, trail: seq<Place>)
    requires Placed(lower, want, root, [], places, done) && Trailed(lower, want, root, trail, done)
    ensures Explained(lower, want, lim, root, b, Listed(BlobsOf(lower, want, root, trail), Spending(lower, want, root, b, trail)), trail)
  {
    hide At, BlobsAt, Sooner, Clear;
    forall x | Owner(lower, want, root, x) ensures x in done {
      assert Reached(lower, want, root, x);
      SoonerDone(lower, want, root, [], places, done, x);
    }
  }

  /** A walk reads the owners in breadth-first order, each once and with one request.  It lists
      exactly their files, when none is truncated, none has a subdirectory that may hold a
      wanted path and comes without a sha, and the limits last; else it fails at the first
      owner that is in the way. */
  lemma WalkExplained(lower: string -> string, want: Want, lim: Limits, root: Dir, b: Budget) returns (trail: seq<Place>)
    ensures Explained(lower, want, lim, root, b, Walk(lower, want, lim, [root], {}, [], b), trail)
  {
    StartPlaced(lower, want, root);
    assert BlobsOf(lower, want, root, []) == [] && Spending(lower, want, root, b, []) == b;
    hide *;
    trail := WalkOwners(lower, want, lim, root, [root], {}, b, [[]], {}, []);
  }

  lemma {:induction false} InBlobsOf(lower: string -> string, want: Want, root: Dir, trail: seq<Place>, f: string)
    ensures f in BlobsOf(lower, want, root, trail) <==> exists x :: x in trail && f in BlobsAt(lower, want, root, x)
  {
    hide BlobsAt;
    if trail != [] {
      var before, last := trail[..|trail| - 1], trail[|trail| - 1];
      InBlobsOf(lower, want, root, before, f);
      assert trail == before + [last];
    }
  }

  /** A walk that completes lists exactly the files that stand in an owner of their path. */
  lemma WalkOwned(lower: string -> string, want: Want, lim: Limits, root: Dir, b: Budget)
    ensures var r := Walk(lower, want, lim, [root], {}, [], b);
      r.Listed? ==> forall f :: f in r.paths <==> Owned(lower, want, root, f)
  {
    hide Walk, Owner, BlobsAt, BlobsOf, Clear, Spending;
    var trail := WalkExplained(lower, want, lim, root, b);
    var r := Walk(lower, want, lim, [root], {}, [], b);
    if r.Listed? {
      forall f ensures f in r.paths <==> Owned(lower, want, root, f) { InBlobsOf(lower, want, root, trail, f); }
    }
  }

  // ---------------------------------------------------------------- exactly when no wanted file is lost

  /** Every wanted file stands in an owner of its path. */
  ghost predicate Unshadowed(lower: string -> string, want: Want, root: Dir) {
    forall f | f in Files(root.path, root.entries) && Wanted(lower, want, f) :: Owned(lower, want, root, f)
  }

  lemma {:induction false} KidsCases(lower: string -> string, want: Want, path: string, l: Listing, c: Dir)
    ensures c in Kids(lower, want, path, l) <==> c in Children(path, l) && CanContain(lower, want, c.path)
  {
    match l
    case End =>
    case Blob(_, next) => KidsCases(lower, want, path, next, c);
    case Other(next) => KidsCases(lower, want, path, next, c);
    case Tree(_, _, _, _, next) => KidsCases(lower, want, path, next, c);
  }

  /** A place is in the repository, with all its files. */
  lemma {:induction false} PlaceIn(lower: string -> string, want: Want, root: Dir, x: Place, f: string)
    requires At(lower, want, root, x).Some?
    ensures var d := At(lower, want, root, x).value;
      InRepo(root, d) && (f in Files(d.path, d.entries) ==> f in Files(root.path, root.entries))
    decreases |x|
  {
    hide Files, Kids, Below, Children;
    if x != [] {
      PlaceIn(lower, want, root, Up(x), f);
      var up, d := At(lower, want, root, Up(x)).value, At(lower, want, root, x).value;
      KidsCases(lower, want, up.path, up.entries, d);
      FilesCases(up.path, up.entries, f);
      ChildBelow(up.path, up.entries, d);
      if up != root { BelowTrans(root.path, root.entries, up, d); }
    }
  }

  /** A walk that completes lists, of the wanted files, exactly those of the repository if and
      only if every one of them stands in an owner. */
  lemma WalkFinds(lower: string -> string, want: Want, lim: Limits, root: Dir, b: Budget)
    ensures var r := Walk(lower, want, lim, [root], {}, [], b);
      r.Listed? ==>
        ((forall f | Wanted(lower, want, f) :: f in r.paths <==> f in Files(root.path, root.entries)) <==> Unshadowed(lower, want, root))
  {
    hide Wanted, Files, Walk, Owned, At;
    WalkOwned(lower, want, lim, root, b);
    forall f | Owned(lower, want, root, f) ensures f in Files(root.path, root.entries) { OwnedIn(lower, want, root, f); }
  }

  lemma StartPlaced(lower: string -> string, want: Want, root: Dir)
    ensures Placed(lower, want, root, [root], [[]], {}) && Visited(lower, want, root, {}, {}) && Trailed(lower, want, root, [], {})
  {
    var none: Place := [];
    assert [none][0] == none;
  }

  lemma OwnedIn(lower: string -> string, want: Want, root: Dir, f: string)
    requires Owned(lower, want, root, f)
    ensures f in Files(root.path, root.entries)
  {
    hide Files, Blobs, Below, Children;
    var x :| Owner(lower, want, root, x) && f in BlobsAt(lower, want, root, x);
    var d := At(lower, want, root, x).value;
    PlaceIn(lower, want, root, x, f);
    FilesCases(d.path, d.entries, f);
  }

  // ---------------------------------------------------------------- repositories that hide no file

  /** A number that orders the ways of one length with positions below `w`. */
  function Code(x: Place, w: nat): nat { if x == [] then 0 else Code(Up(x), w) * w + x[|x| - 1] }

  lemma {:induction false} CodeSooner(x: Place, y: Place, w: nat)
    requires |x| == |y| && Sooner(x, y) && forall i | 0 <= i < |x| :: x[i] < w
    ensures Code(x, w) < Code(y, w)
    decreases |x|
  {
    if x == [] {
      NotSooner(x);
    } else if Up(x) != Up(y) {
      CodeSooner(Up(x), Up(y), w);
      Carried(Code(Up(x), w), Code(Up(y), w), w);
    } else {
      NotSooner(Up(x));
    }
  }

  lemma Carried(a: nat, b: nat, w: nat)
    requires a < b
    ensures a * w + w <= b * w
  {
    assert b * w == a * w + (b - a) * w;
    assert (b - a) * w >= w by { assert b - a >= 1; }
  }

  lemma {:induction false} KidsFew(lower: string -> string, want: Want, path: string, l: Listing)
    ensures |Kids(lower, want, path, l)| <= Trees(l)
    ensures forall c | c in Kids(lower, want, path, l) :: Trees(c.entries) <= Trees(l)
  {
    match l
    case End =>
    case Blob(_, next) => KidsFew(lower, want, path, next);
    case Other(next) => KidsFew(lower, want, path, next);
    case Tree(_, _, _, _, next) => KidsFew(lower, want, path, next);
  }

  lemma {:induction false} PlaceNarrow(lower: string -> string, want: Want, root: Dir, x: Place)
    requires At(lower, want, root, x).Some?
    ensures Trees(At(lower, want, root, x).value.entries) <= Trees(root.entries)
    ensures forall i | 0 <= i < |x| :: x[i] < Trees(root.entries)
    decreases |x|
  {
    hide Kids, Trees;
    if x != [] {
      PlaceNarrow(lower, want, root, Up(x));
      var up := At(lower, want, root, Up(x)).value;
      KidsFew(lower, want, up.path, up.entries);
      assert forall i | 0 <= i < |x| - 1 :: x[i] == Up(x)[i];
    }
  }

  /** Every place reached has an owner of its path. */
  lemma {:induction false} OwnerOf(lower: string -> string, want: Want, root: Dir, x: Place) returns (y: Place)
    requires Reached(lower, want, root, x)
    ensures Owner(lower, want, root, y) && At(lower, want, root, y).Some?
    ensures At(lower, want, root, y).value.path == At(lower, want, root, x).value.path
    decreases |x|, Code(x, Trees(root.entries))
  {
    hide At, Sooner, Trees, Code;
    if Owner(lower, want, root, x) {
      y := x;
    } else {
      var z :| |z| <= |x| && Sooner(z, x) && Reached(lower, want, root, z)
        && At(lower, want, root, z).value.path == At(lower, want, root, x).value.path;
      PlaceNarrow(lower, want, root, z);
      if |z| == |x| { CodeSooner(z, x, Trees(root.entries)); }
      y := OwnerOf(lower, want, root, z);
    }
  }

  /** A wanted file of a directory is listed there or lies in a subdirectory that is queued. */
  lemma WantedBelow(lower: string -> string, want: Want, d: Dir, f: string) returns (c: Dir)
    requires Splits(lower) && Normalize(d.path) == d.path && Named(d.entries)
    requires f in Files(d.path, d.entries) && Wanted(lower, want, f) && f !in Blobs(d.path, d.entries)
    ensures c in Kids(lower, want, d.path, d.entries) && f in Files(c.path, c.entries) && |d.path| < |c.path| < |f|
  {
    hide Wanted, CanContain, Files, Kids;
    FilesCases(d.path, d.entries, f);
    c :| c in Children(d.path, d.entries) && f in Files(c.path, c.entries);
    ChildDeeper(d.path, d.entries, c);
    var rest := FileUnder(c.path, c.entries, f);
    PruneSafe(lower, want, c.path, rest);
    KidsCases(lower, want, d.path, d.entries, c);
  }

  lemma {:induction false} Descend(lower: string -> string, want: Want, root: Dir, x: Place, f: string)
    requires Splits(lower) && Repo(lower, want, root) && Owner(lower, want, root, x) && At(lower, want, root, x).Some?
    requires var d := At(lower, want, root, x).value; f in Files(d.path, d.entries) && Wanted(lower, want, f)
    ensures Owned(lower, want, root, f)
    decreases |f| - |At(lower, want, root, x).value.path|
  {
    hide At, Wanted, Files, Below, Kids, Blobs, Owner, Reached, Named, Normalize;
    var d := At(lower, want, root, x).value;
    PlaceIn(lower, want, root, x, f);
    RepoDir(root, d);
    if f in Blobs(d.path, d.entries) {
      assert f in BlobsAt(lower, want, root, x);
    } else {
      var c := WantedBelow(lower, want, d, f);
      var k :| 0 <= k < |Kids(lower, want, d.path, d.entries)| && Kids(lower, want, d.path, d.entries)[k] == c;
      KidReached(lower, want, root, x, x + [k]);
      var y := OwnerOf(lower, want, root, x + [k]);
      PlaceIn(lower, want, root, x + [k], f);
      PlaceIn(lower, want, root, y, f);
      Descend(lower, want, root, y, f);
    }
  }

  /** Where directories with one normalized path hold the same wanted files, none is lost. */
  lemma AgreeingUnshadowed(lower: string -> string, want: Want, root: Dir)
    requires Splits(lower) && Repo(lower, want, root)
    ensures Unshadowed(lower, want, root)
  {
    RootOwns(lower, want, root);
    hide Owner, Files, Wanted, Repo;
    forall f | f in Files(root.path, root.entries) && Wanted(lower, want, f) ensures Owned(lower, want, root, f) {
      Descend(lower, want, root, [], f);
    }
  }

  lemma RootOwns(lower: string -> string, want: Want, root: Dir)
    ensures Owner(lower, want, root, []) && At(lower, want, root, []) == Some(root)
  {
    assert forall y :: !Sooner(y, []);
  }

  // ---------------------------------------------------------------- requests and completion

  /** Requests sent: the counted ones, less the one that the limit stopped. */
  function Sent(r: Outcome): int { if r.Failed? && r.error == RequestLimit then r.budget.requests - 1 else r.budget.requests }

  /** A walk never sends more requests than allowed, nor more than there are directories. */
  lemma {:induction false} WalkRequests(lower: string -> string, want: Want, lim: Limits, queue: seq<Dir>, visited: set<string>,
                                        paths: seq<string>, b: Budget)
    requires b.requests <= lim.maxRequests
    ensures var r := Walk(lower, want, lim, queue, visited, paths, b);
      b.requests <= Sent(r) <= lim.maxRequests && Sent(r) <= b.requests + Weight(queue)
      && (r.Failed? ==> r.error != FileCountLimit)
    decreases Weight(queue)
  {
    hide Entered, Blobs;
    if queue != [] {
      var dir, rest := queue[0], queue[1..];
      if dir.path in visited {
        WalkRequests(lower, want, lim, rest, visited, paths, b);
      } else {
        var fetched := Fetch(b, lim, Width(dir.entries));
        var entered := Entered(lower, want, dir.path, dir.entries);
        if fetched.Answer? && !dir.truncated && entered.Some? {
          EnteredWeight(lower, want, dir.path, dir.entries);
          WeightConcat(rest, entered.value);
          WalkRequests(lower, want, lim, rest + entered.value, visited + {dir.path}, paths + Blobs(dir.path, dir.entries), fetched.budget);
        }
      }
    }
  }

  /** No subdirectory comes without a sha or with a truncated listing. */
  predicate Whole(l: Listing) {
    match l
    case End => true
    case Blob(_, next) => Whole(next)
    case Other(next) => Whole(next)
    case Tree(_, sha, truncated, entries, next) => sha && !truncated && Whole(entries) && Whole(next)
  }

  predicate AllWhole(queue: seq<Dir>) { forall d | d in queue :: !d.truncated && Whole(d.entries) }

  function Load(queue: seq<Dir>): nat { if queue == [] then 0 else AllEntries(queue[0].entries) + Load(queue[1..]) }

  lemma {:induction false} LoadConcat(a: seq<Dir>, b: seq<Dir>)
    ensures Load(a + b) == Load(a) + Load(b)
  {
    if a == [] {
      assert a + b == b;
    } else {
      assert (a + b)[1..] == a[1..] + b;
      LoadConcat(a[1..], b);
    }
  }

  lemma {:induction false} EnteredWhole(lower: string -> string, want: Want, path: string, l: Listing)
    requires Whole(l)
    ensures var e := Entered(lower, want, path, l); e.Some? && AllWhole(e.value) && Width(l) + Load(e.value) <= AllEntries(l)
  {
    match l
    case End =>
    case Blob(_, next) => EnteredWhole(lower, want, path, next);
    case Other(next) => EnteredWhole(lower, want, path, next);
    case Tree(name, sha, truncated, entries, next) =>
      EnteredWhole(lower, want, path, next);
      var e := Entered(lower, want, path, next).value;
      LoadConcat([Dir(Join(path, name), truncated, entries)], e);
  }

  /** With limits that cover the repository, the walk of a whole one completes. */
  lemma {:induction false} WalkCompletes(lower: string -> string, want: Want, lim: Limits, queue: seq<Dir>, visited: set<string>,
                                         paths: seq<string>, b: Budget)
    requires AllWhole(queue)
    requires b.requests + Weight(queue) <= lim.maxRequests && b.entries + Load(queue) <= lim.maxEntries
    ensures Walk(lower, want, lim, queue, visited, paths, b).Listed?
    decreases Weight(queue)
  {
    hide Entered, Blobs, Whole;
    if queue != [] {
      var dir, rest := queue[0], queue[1..];
      if dir.path in visited {
        WalkCompletes(lower, want, lim, rest, visited, paths, b);
      } else {
        EnteredWhole(lower, want, dir.path, dir.entries);
        var dirs := Entered(lower, want, dir.path, dir.entries).value;
        EnteredWeight(lower, want, dir.path, dir.entries);
        WeightConcat(rest, dirs);
        LoadConcat(rest, dirs);
        var fetched := Fetch(b, lim, Width(dir.entries));
        WalkCompletes(lower, want, lim, rest + dirs, visited + {dir.path}, paths + Blobs(dir.path, dir.entries), fetched.budget);
      }
    }
  }

  // ---------------------------------------------------------------- selection

  function Select(lower: string -> string, want: Want, paths: seq<string>): (r: seq<string>)
    ensures forall f :: f in r <==> f in paths && Wanted(lower, want, f)
  {
    if paths == [] then []
    else if Wanted(lower, want, paths[0]) then [paths[0]] + Select(lower, want, paths[1..])
    else Select(lower, want, paths[1..])
  }

  /** The distinct paths, in order of first appearance, after those in `kept`. */
  function Dedupe(kept: seq<string>, paths: seq<string>): (r: seq<string>)
    requires Distinct(kept)
    ensures Distinct(r) && forall f :: f in r <==> f in kept || f in paths
    decreases |paths|
  {
    if paths == [] then kept
    else if paths[0] in kept then Dedupe(kept, paths[1..])
    else Dedupe(kept + [paths[0]], paths[1..])
  }

  predicate Distinct(s: seq<string>) { forall i, j | 0 <= i < j < |s| :: s[i] != s[j] }

  function Finish(lower: string -> string, want: Want, lim: Limits, listed: Outcome): Outcome {
    match listed
    case Failed(_, _) => listed
    case Listed(paths, b) =>
      var kept := Dedupe([], Select(lower, want, paths));
      if |kept| > lim.maxFiles then Failed(FileCountLimit, b) else Listed(kept, b)
  }

  /** The recursive listing's answer: complete, or some entries of it and `truncated`. */
  datatype Recursive = Complete | Partial(entries: nat)

  /** The files `fetchRepoFiles` goes on to read. */
  function Chosen(lower: string -> string, want: Want, lim: Limits, root: Dir, answer: Recursive): Outcome {
    match Fetch(Budget(0, 0), lim, if answer.Partial? then answer.entries else AllEntries(root.entries))
    case Refused(e, b) => Failed(e, b)
    case Answer(b) =>
      Finish(lower, want, lim,
        if answer.Partial? then Walk(lower, want, lim, [root], {}, [], b)
        else Listed(NormalizeAll(RawFiles("", root.entries)), b))
  }

  lemma {:induction false} DistinctSize(a: seq<string>, b: seq<string>)
    requires Distinct(a) && Distinct(b) && forall f :: f in a <==> f in b
    ensures multiset(a) == multiset(b) && |a| == |b|
  {
    forall f ensures multiset(a)[f] == multiset(b)[f] {
      DistinctCount(a, f);
      DistinctCount(b, f);
    }
    assert |multiset(a)| == |a| && |multiset(b)| == |b|;
  }

  lemma {:induction false} DistinctCount(a: seq<string>, f: string)
    requires Distinct(a)
    ensures multiset(a)[f] == if f in a then 1 else 0
    decreases |a|
  {
    if a != [] {
      assert a == [a[0]] + a[1..];
      assert Distinct(a[1..]);
      assert forall i | 0 <= i < |a[1..]| :: a[1..][i] == a[i + 1];
      DistinctCount(a[1..], f);
      assert multiset(a) == multiset([a[0]]) + multiset(a[1..]);
    }
  }

  /** What either way of listing leads to: each chosen file once; and, after the recursive
      listing always, after a walk if and only if no wanted file is shadowed, exactly the wanted
      files of the repository. */
  lemma ChosenExact(lower: string -> string, want: Want, lim: Limits, root: Dir, answer: Recursive)
    requires root.path == ""
    ensures var r := Chosen(lower, want, lim, root, answer);
      r.Listed? ==>
        && Distinct(r.paths) && |r.paths| <= lim.maxFiles
        && ((forall f :: f in r.paths <==> f in Files("", root.entries) && Wanted(lower, want, f))
            <==> answer.Complete? || Unshadowed(lower, want, root))
  {
    hide Wanted, Files, Walk, NormalizeAll, RawFiles, Unshadowed;
    var fetched := Fetch(Budget(0, 0), lim, if answer.Partial? then answer.entries else AllEntries(root.entries));
    if fetched.Answer? {
      if answer.Partial? {
        WalkFinds(lower, want, lim, root, fetched.budget);
        WalkForeign(lower, want, lim, root, fetched.budget);
      } else {
        assert Normalize("") == "";
        ListingIsFiles("", root.entries);
      }
    }
  }

  /** A walk lists nothing foreign. */
  lemma WalkForeign(lower: string -> string, want: Want, lim: Limits, root: Dir, b: Budget)
    ensures var r := Walk(lower, want, lim, [root], {}, [], b);
      r.Listed? ==> forall f | f in r.paths :: f in Files(root.path, root.entries)
  {
    hide Wanted, Files, Walk, Owned, At;
    WalkOwned(lower, want, lim, root, b);
    forall f | Owned(lower, want, root, f) ensures f in Files(root.path, root.entries) { OwnedIn(lower, want, root, f); }
  }

  /** The entries that the first request answers with. */
  function FirstEntries(root: Dir, answer: Recursive): nat { if answer.Partial? then answer.entries else AllEntries(root.entries) }

  /** Why no files are chosen. */
  ghost predicate Excused(lower: string -> string, want: Want, lim: Limits, root: Dir, answer: Recursive, error: Error) {
    match error
    case RequestLimit =>
      lim.maxRequests == 0 || (answer.Partial? && exists trail :: Trail(lower, want, root, trail) && 1 + |trail| > lim.maxRequests)
    case EntryLimit =>
      FirstEntries(root, answer) > lim.maxEntries || (answer.Partial? && exists trail ::
        Trail(lower, want, root, trail) && answer.entries + WidthOf(lower, want, root, trail) > lim.maxEntries)
    case TruncatedTree => answer.Partial? && exists x :: Owner(lower, want, root, x) && Truncated(lower, want, root, x)
    case MissingSha => answer.Partial? && exists x :: Owner(lower, want, root, x) && Unnamed(lower, want, root, x)
    case FileCountLimit => exists files :: |files| > lim.maxFiles && WantedFiles(lower, want, root, files)
  }

  /** Distinct wanted files of the repository. */
  ghost predicate WantedFiles(lower: string -> string, want: Want, root: Dir, files: seq<string>) {
    Distinct(files) && forall f | f in files :: f in Files(root.path, root.entries) && Wanted(lower, want, f)
  }

  /** Files are chosen from a walk only if no owner is truncated or lacks a sha it needs; and
      when none are, the error that is answered is true. */
  lemma ChosenExplained(lower: string -> string, want: Want, lim: Limits, root: Dir, answer: Recursive)
    requires root.path == ""
    ensures Chosen(lower, want, lim, root, answer).Listed? && answer.Partial? ==>
      forall x | Owner(lower, want, root, x) :: !Truncated(lower, want, root, x) && !Unnamed(lower, want, root, x)
    ensures var r := Chosen(lower, want, lim, root, answer); r.Failed? ==> Excused(lower, want, lim, root, answer, r.error)
  {
    hide Wanted, Files, Walk, NormalizeAll, RawFiles, Truncated, Unnamed, Owner, BlobsOf, WidthOf, Explained, Excused, Trail;
    var fetched := Fetch(Budget(0, 0), lim, FirstEntries(root, answer));
    if fetched.Refused? {
      FirstRefused(lower, want, lim, root, answer);
    } else if answer.Partial? {
      var trail := WalkExplained(lower, want, lim, root, fetched.budget);
      var w := Walk(lower, want, lim, [root], {}, [], fetched.budget);
      if w.Failed? {
        WalkExcused(lower, want, lim, root, answer, fetched.budget, w, trail);
      } else {
        ListedClear(lower, want, lim, root, fetched.budget, w, trail);
        WalkForeign(lower, want, lim, root, fetched.budget);
        TooMany(lower, want, lim, root, answer, w.paths);
      }
    } else {
      assert Normalize("") == "";
      ListingIsFiles("", root.entries);
      TooMany(lower, want, lim, root, answer, NormalizeAll(RawFiles("", root.entries)));
    }
  }

  lemma FirstRefused(lower: string -> string, want: Want, lim: Limits, root: Dir, answer: Recursive)
    ensures var fetched := Fetch(Budget(0, 0), lim, FirstEntries(root, answer));
      fetched.Refused? ==> Excused(lower, want, lim, root, answer, fetched.error)
  {
    hide Wanted, Files, Truncated, Unnamed, Owner, WidthOf, Trail, AllEntries;
  }

  lemma WalkExcused(lower: string -> string, want: Want, lim: Limits, root: Dir, answer: Recursive, b: Budget, w: Outcome, trail: seq<Place>)
    requires answer.Partial? && b == Budget(1, answer.entries) && w.Failed? && Explained(lower, want, lim, root, b, w, trail)
    ensures Excused(lower, want, lim, root, answer, w.error)
  {
    hide Wanted, Files, Truncated, Unnamed, Owner, WidthOf, BlobsOf, Clear, AllEntries;
    assert trail[|trail| - 1] in trail;
  }

  lemma ListedClear(lower: string -> string, want: Want, lim: Limits, root: Dir, b: Budget, w: Outcome, trail: seq<Place>)
    requires w.Listed? && Explained(lower, want, lim, root, b, w, trail)
    ensures forall x | Owner(lower, want, root, x) :: !Truncated(lower, want, root, x) && !Unnamed(lower, want, root, x)
  {
    hide Truncated, Unnamed, Owner, WidthOf, BlobsOf;
  }

  lemma TooMany(lower: string -> string, want: Want, lim: Limits, root: Dir, answer: Recursive, paths: seq<string>)
    requires forall f | f in paths :: f in Files(root.path, root.entries)
    ensures |Dedupe([], Select(lower, want, paths))| > lim.maxFiles ==> Excused(lower, want, lim, root, answer, FileCountLimit)
  {
    hide Wanted, Files;
  }

  /** The listing itself did not fail. */
  predicate Counted(r: Outcome) { r.Listed? || r.error == FileCountLimit }

  /** Repairing a truncated listing changes nothing if and only if no wanted file is shadowed:
      when neither way of listing fails, both choose the same files, or both refuse them for
      being too many.  And no request is sent beyond the limit. */
  lemma WalkRefinesListing(lower: string -> string, want: Want, lim: Limits, root: Dir, partial: nat)
    requires root.path == ""
    ensures var a := Chosen(lower, want, lim, root, Partial(partial)); var b := Chosen(lower, want, lim, root, Complete);
      && (Counted(a) && Counted(b) && Unshadowed(lower, want, root) ==> a.Listed? == b.Listed?)
      && (a.Listed? && b.Listed? ==> (multiset(a.paths) == multiset(b.paths) <==> Unshadowed(lower, want, root)))
      && Sent(a) <= lim.maxRequests && Sent(b) <= lim.maxRequests
  {
    hide Wanted, Walk, Files, Unshadowed;
    if Unshadowed(lower, want, root) { SameCount(lower, want, lim, root, partial); }
    ChosenExact(lower, want, lim, root, Partial(partial));
    ChosenExact(lower, want, lim, root, Complete);
    var a, b := Chosen(lower, want, lim, root, Partial(partial)), Chosen(lower, want, lim, root, Complete);
    if a.Listed? && b.Listed? {
      if Unshadowed(lower, want, root) { DistinctSize(a.paths, b.paths); }
      if multiset(a.paths) == multiset(b.paths) {
        forall f ensures f in a.paths <==> f in b.paths { assert f in a.paths <==> f in multiset(a.paths); }
      }
    }
    var fetched := Fetch(Budget(0, 0), lim, partial);
    if fetched.Answer? { WalkRequests(lower, want, lim, [root], {}, [], fetched.budget); }
  }

  /** The same number of distinct wanted files, whichever way they were listed. */
  lemma SameCount(lower: string -> string, want: Want, lim: Limits, root: Dir, partial: nat)
    requires root.path == "" && Unshadowed(lower, want, root)
    ensures var fa := Fetch(Budget(0, 0), lim, partial);
      var w := if fa.Answer? then Walk(lower, want, lim, [root], {}, [], fa.budget) else Failed(EntryLimit, fa.budget);
      w.Listed? ==>
        |Dedupe([], Select(lower, want, w.paths))| == |Dedupe([], Select(lower, want, NormalizeAll(RawFiles("", root.entries))))|
  {
    hide Wanted, Files, Walk, NormalizeAll, RawFiles, Fetch, Unshadowed;
    var fa := Fetch(Budget(0, 0), lim, partial);
    if fa.Answer? {
      var w := Walk(lower, want, lim, [root], {}, [], fa.budget);
      if w.Listed? {
        WalkFinds(lower, want, lim, root, fa.budget);
        assert Normalize("") == "";
        ListingIsFiles("", root.entries);
        DistinctSize(Dedupe([], Select(lower, want, w.paths)),
                     Dedupe([], Select(lower, want, NormalizeAll(RawFiles("", root.entries)))));
      }
    }
  }

  // ---------------------------------------------------------------- which repositories qualify

  predicate HasTree(l: Listing, name: string) {
    match l
    case End => false
    case Blob(_, next) => HasTree(next, name)
    case Other(next) => HasTree(next, name)
    case Tree(n, _, _, _, next) => n == name || HasTree(next, name)
  }

  predicate PlainName(name: string) { name != "" && '/' !in name && '\\' !in name }

  /** Directory names are what Git allows, without a backslash, and differ among siblings. */
  predicate Plain(l: Listing) {
    match l
    case End => true
    case Blob(_, next) => Plain(next)
    case Other(next) => Plain(next)
    case Tree(name, _, _, entries, next) => PlainName(name) && !HasTree(next, name) && Plain(entries) && Plain(next)
  }

  lemma PlainJoin(path: string, name: string)
    requires Normalize(path) == path && PlainName(name)
    ensures Join(path, name) == RawJoin(path, name)
    ensures Normalize(Join(path, name)) == Join(path, name)
  {
    JoinNormal(path, name);
    assert Normalize(name) == name;
    if path != "" {
      NormalizeConcat(path + "/", name);
      NormalizeConcat(path, "/");
    }
  }

  predicate Tail(r: string) { r == "" || r[0] == '/' }

  lemma {:induction false} FirstName(path: string, l: Listing, d: Dir) returns (n: string, r: string)
    requires Normalize(path) == path && Plain(l) && Below(path, l, d)
    ensures HasTree(l, n) && PlainName(n) && Tail(r) && d.path == RawJoin(path, n) + r
    decreases l
  {
    match l
    case Blob(_, next) => n, r := FirstName(path, next, d);
    case Other(next) => n, r := FirstName(path, next, d);
    case Tree(name, _, truncated, entries, next) =>
      PlainJoin(path, name);
      if Below(path, next, d) {
        n, r := FirstName(path, next, d);
      } else if d == Dir(Join(path, name), truncated, entries) {
        n, r := name, "";
        assert d.path == RawJoin(path, n) + r;
      } else {
        var n', r' := FirstName(Join(path, name), entries, d);
        n, r := name, "/" + n' + r';
        assert d.path == (RawJoin(path, name) + "/" + n') + r';
        assert d.path == RawJoin(path, n) + r;
      }
  }

  /** A string up to its first slash. */
  function Head(s: string): string { if s == "" || s[0] == '/' then "" else [s[0]] + Head(s[1..]) }

  lemma {:induction false} HeadPlain(a: string, r: string)
    requires '/' !in a && Tail(r)
    ensures Head(a + r) == a
  {
    if a == "" {
      assert a + r == r;
    } else {
      assert (a + r)[1..] == a[1..] + r && (a + r)[0] == a[0];
      HeadPlain(a[1..], r);
    }
  }

  lemma SameFirst(path: string, a: string, r: string, b: string, t: string)
    requires PlainName(a) && PlainName(b) && Tail(r) && Tail(t) && RawJoin(path, a) + r == RawJoin(path, b) + t
    ensures a == b && r == t
  {
    hide Head, Tail;
    var p := if path == "" then "" else path + "/";
    assert RawJoin(path, a) + r == p + (a + r) && RawJoin(path, b) + t == p + (b + t);
    var w := a + r;
    assert w == (p + (a + r))[|p|..] && b + t == (p + (b + t))[|p|..];
    HeadPlain(a, r);
    HeadPlain(b, t);
    assert r == w[|a|..] && t == (b + t)[|b|..];
  }

  /** In a plain repository a path names one directory. */
  lemma {:induction false} PathsUnique(path: string, l: Listing, a: Dir, b: Dir)
    requires Normalize(path) == path && Plain(l) && Below(path, l, a) && Below(path, l, b) && a.path == b.path
    ensures a == b
    decreases l
  {
    match l
    case Blob(_, next) => PathsUnique(path, next, a, b);
    case Other(next) => PathsUnique(path, next, a, b);
    case Tree(name, _, truncated, entries, next) =>
      PlainJoin(path, name);
      var d := Dir(Join(path, name), truncated, entries);
      if Below(path, next, a) && Below(path, next, b) {
        PathsUnique(path, next, a, b);
      } else if Below(path, next, a) {
        Apart(path, name, next, a, d, entries, b);
      } else if Below(path, next, b) {
        Apart(path, name, next, b, d, entries, a);
      } else if a != d && b != d {
        PathsUnique(d.path, entries, a, b);
      } else if a != d {
        var n, r := FirstName(d.path, entries, a);
      } else if b != d {
        var n, r := FirstName(d.path, entries, b);
      }
  }

  /** Directories under different siblings have different paths. */
  lemma Apart(path: string, name: string, next: Listing, a: Dir, d: Dir, entries: Listing, b: Dir)
    requires Normalize(path) == path && PlainName(name) && Plain(next) && !HasTree(next, name) && Below(path, next, a)
    requires d.path == RawJoin(path, name) && Normalize(d.path) == d.path && Plain(entries)
    requires b == d || Below(d.path, entries, b)
    ensures a.path != b.path
  {
    hide Below, Plain, Normalize, HasTree, RawJoin;
    var n, r := FirstName(path, next, a);
    var t := UnderPath(path, name, d, entries, b);
    if a.path == b.path { SameFirst(path, n, r, name, t); }
  }

  lemma UnderPath(path: string, name: string, d: Dir, entries: Listing, b: Dir) returns (t: string)
    requires d.path == RawJoin(path, name) && PlainName(name) && Normalize(d.path) == d.path && Plain(entries)
    requires b == d || Below(d.path, entries, b)
    ensures Tail(t) && b.path == RawJoin(path, name) + t
  {
    hide Below, Plain, Normalize, HasTree;
    t := "";
    if b == d {
      assert b.path == RawJoin(path, name) + "";
    } else {
      var m, t' := FirstName(d.path, entries, b);
      assert d.path != "";
      t := "/" + m + t';
      assert b.path == (RawJoin(path, name) + "/" + m) + t';
    }
  }

  lemma {:induction false} PlainNamed(l: Listing)
    requires Plain(l)
    ensures Named(l)
  {
    match l
    case End =>
    case Blob(_, next) => PlainNamed(next);
    case Other(next) => PlainNamed(next);
    case Tree(_, _, _, entries, next) => PlainNamed(entries); PlainNamed(next);
  }

  /** Every repository whose directory names hold no backslash qualifies for the results. */
  lemma PlainRepo(lower: string -> string, want: Want, root: Dir)
    requires root.path == "" && Plain(root.entries)
    ensures Repo(lower, want, root) && (Splits(lower) ==> Unshadowed(lower, want, root))
  {
    hide Wanted, Files, Unshadowed;
    PlainNamed(root.entries);
    assert Normalize("") == "";
    forall a, b | InRepo(root, a) && InRepo(root, b) && a.path == b.path ensures a.entries == b.entries {
      if a != root {
        var n, r := FirstName("", root.entries, a);
        if b != root { PathsUnique("", root.entries, a, b); }
      } else if b != root {
        var n, r := FirstName("", root.entries, b);
      }
    }
    if Splits(lower) { AgreeingUnshadowed(lower, want, root); }
  }

  /** ONE directory of the walk. */
  lemma Visit(lower: string -> string, want: Want, lim: Limits, queue: seq<Dir>, visited: set<string>,
              paths: seq<string>, b: Budget, dirs: seq<Dir>, after: Budget)
    requires queue != [] && queue[0].path !in visited && !queue[0].truncated
    requires Entered(lower, want, queue[0].path, queue[0].entries) == Some(dirs)
    requires Fetch(b, lim, Width(queue[0].entries)) == Answer(after)
    ensures Walk(lower, want, lim, queue, visited, paths, b) ==
      Walk(lower, want, lim, queue[1..] + dirs, visited + {queue[0].path}, paths + Blobs(queue[0].path, queue[0].entries), after)
  {
    hide Entered, Blobs, Width, Weight, Fetch;
  }

  lemma Skip(lower: string -> string, want: Want, lim: Limits, dir: Dir, rest: seq<Dir>, visited: set<string>, paths: seq<string>, b: Budget)
    requires dir.path in visited
    ensures Walk(lower, want, lim, [dir] + rest, visited, paths, b) == Walk(lower, want, lim, rest, visited, paths, b)
    ensures Walk(lower, want, lim, [], visited, paths, b) == Listed(paths, b)
  {
    assert ([dir] + rest)[1..] == rest;
  }

  function Same(s: string): string { s }

  const LOST_WANT: Want := ["a/b/y.md", "a/b/x.md"]

  const INNER := Dir("a/b", false, Blob("y.md", End))
  const ONE := Dir("a/b", false, Blob("x.md", End))
  const TWO := Dir("a", false, Tree("b", true, false, INNER.entries, End))
  const CLASH := Dir("", false, Tree("a\\b", true, false, ONE.entries, Tree("a", true, false, TWO.entries, End)))

  lemma ClashNames()
    ensures Join("", "a\\b") == "a/b" && Join("", "a") == "a" && Join("a", "b") == "a/b"
    ensures Join("a/b", "y.md") == "a/b/y.md" && Join("a/b", "x.md") == "a/b/x.md"
    ensures CanContain(Same, LOST_WANT, "a/b") && CanContain(Same, LOST_WANT, "a")
    ensures Wanted(Same, LOST_WANT, "a/b/y.md")
  {
    var lost := LOST_WANT[0];
    assert lost[..4] == "a/b/" && lost[..2] == "a/";
    assert Same("a/b") + "/" == "a/b/" && Same("a") + "/" == "a/";
    assert StartsWith(Same(lost), Same("a/b") + "/") && StartsWith(Same(lost), Same("a") + "/");
    assert Normalize(lost) == lost && lost[5..] == ".md";
    assert Same(lost) == Same("a/b/y.md");
  }

  lemma ClashEntered()
    ensures Entered(Same, LOST_WANT, "", CLASH.entries) == Some([ONE, TWO])
    ensures Entered(Same, LOST_WANT, "a/b", ONE.entries) == Some([])
    ensures Entered(Same, LOST_WANT, "a", TWO.entries) == Some([INNER])
    ensures Blobs("", CLASH.entries) == [] && Blobs("a/b", ONE.entries) == ["a/b/x.md"] && Blobs("a", TWO.entries) == []
    ensures Width(CLASH.entries) == 2 && Width(ONE.entries) == 1 && Width(TWO.entries) == 1
  {
    hide Join, CanContain;
    ClashNames();
    assert [ONE] + [TWO] == [ONE, TWO];
    assert [INNER] + [] == [INNER] && [TWO] + [] == [TWO];
    assert Dir(Join("", "a"), false, TWO.entries) == TWO;
    var rest := Tree("a", true, false, TWO.entries, End);
    assert Entered(Same, LOST_WANT, "", rest) == Some([TWO]);
  }

  lemma ClashWalk()
    ensures Walk(Same, LOST_WANT, Limits(10, 10, 10), [CLASH], {}, [], Budget(1, 3)) == Listed(["a/b/x.md"], Budget(4, 7))
  {
    hide Entered, Blobs, Width, Walk;
    ClashEntered();
    var lim := Limits(10, 10, 10);
    Visit(Same, LOST_WANT, lim, [CLASH], {}, [], Budget(1, 3), [ONE, TWO], Budget(2, 5));
    assert [CLASH][1..] + [ONE, TWO] == [ONE, TWO] && [] + Blobs("", CLASH.entries) == [];
    Visit(Same, LOST_WANT, lim, [ONE, TWO], {} + {""}, [], Budget(2, 5), [], Budget(3, 6));
    assert [ONE, TWO][1..] + [] == [TWO] && [] + Blobs("a/b", ONE.entries) == ["a/b/x.md"];
    Visit(Same, LOST_WANT, lim, [TWO], {} + {""} + {"a/b"}, ["a/b/x.md"], Budget(3, 6), [INNER], Budget(4, 7));
    assert [TWO][1..] + [INNER] == [INNER] + [] && ["a/b/x.md"] + Blobs("a", TWO.entries) == ["a/b/x.md"];
    Skip(Same, LOST_WANT, lim, INNER, [], {} + {""} + {"a/b"} + {"a"}, ["a/b/x.md"], Budget(4, 7));
  }

  /** A backslash in a name can make two directories share a normalized path: the walk then
      enters only one of them, and loses a wanted file that the recursive listing has. */
  lemma BackslashLosesFile()
    ensures Splits(Same) && Named(CLASH.entries) && !Unshadowed(Same, LOST_WANT, CLASH)
    ensures "a/b/y.md" in Files("", CLASH.entries) && Wanted(Same, LOST_WANT, "a/b/y.md")
    ensures var r := Walk(Same, LOST_WANT, Limits(10, 10, 10), [CLASH], {}, [], Budget(1, 3));
      r.Listed? && "a/b/y.md" !in r.paths
  {
    hide Join, Walk, Wanted;
    ClashNames();
    ClashWalk();
    var rest := Tree("a", true, false, TWO.entries, End);
    assert Files("a/b", INNER.entries) == ["a/b/y.md"];
    assert "a/b/y.md" in Files("a", TWO.entries);
    assert "a/b/y.md" in Files("", rest);
    assert "a/b/y.md"[4] != "a/b/x.md"[4];
    WalkFinds(Same, LOST_WANT, Limits(10, 10, 10), CLASH, Budget(1, 3));
  }

  // ---------------------------------------------------------------- the walk, in place

  class Meter {
    var treeRequests: nat
    var treeEntries: nat

    constructor ()
      ensures Spent() == Budget(0, 0)
    {
      treeRequests, treeEntries := 0, 0;
    }

    function Spent(): Budget
      reads this
    {
      Budget(treeRequests, treeEntries)
    }

    /** The budget half of a fetch; the request is sent only when the first check passes. */
    method Charge(lim: Limits, entries: nat) returns (error: Option<Error>)
      modifies this
      ensures match Fetch(old(Spent()), lim, entries)
        case Answer(b) => error == None && Spent() == b
        case Refused(e, b) => error == Some(e) && Spent() == b
    {
      treeRequests := treeRequests + 1;
      if treeRequests > lim.maxRequests { return Some(RequestLimit); }
      treeEntries := treeEntries + entries;
      if treeEntries > lim.maxEntries { return Some(EntryLimit); }
      return None;
    }
  }

  method QueueChildren(lower: string -> string, want: Want, path: string, l: Listing) returns (dirs: Option<seq<Dir>>)
    ensures dirs == Entered(lower, want, path, l)
  {
    hide Join, CanContain;
    var items := l;
    var found: seq<Dir> := [];
    assert Entered(lower, want, path, l).Some? ==> found + Entered(lower, want, path, l).value == Entered(lower, want, path, l).value;
    while items != End
      invariant match Entered(lower, want, path, items)
        case None => Entered(lower, want, path, l) == None
        case Some(more) => Entered(lower, want, path, l) == Some(found + more)
      decreases items
    {
      match items {
        case Tree(name, sha, truncated, entries, next) =>
          var childPath := Join(path, name);
          if CanContain(lower, want, childPath) {
            if !sha { return None; }
            ghost var more, d := Entered(lower, want, path, next), Dir(childPath, truncated, entries);
            if more.Some? { assert found + ([d] + more.value) == found + [d] + more.value; }
            found := found + [Dir(childPath, truncated, entries)];
          }
          items := next;
        case Blob(_, next) => items := next;
        case Other(next) => items := next;
      }
    }
    assert found + [] == found;
    return Some(found);
  }

  method WalkTree(lower: string -> string, want: Want, lim: Limits, root: Dir, meter: Meter) returns (r: Outcome)
    modifies meter
    ensures r == Walk(lower, want, lim, [root], {}, [], old(meter.Spent()))
    ensures r.budget == meter.Spent()
  {
    var paths: seq<string> := [];
    var queue := [root];
    var visited: set<string> := {};
    ghost var whole := Walk(lower, want, lim, queue, visited, paths, meter.Spent());
    while queue != []
      invariant whole == Walk(lower, want, lim, queue, visited, paths, meter.Spent())
      decreases Weight(queue)
    {
      hide Entered, Blobs;
      var dir := queue[0];
      queue := queue[1..];
      if dir.path !in visited {
        visited := visited + {dir.path};
        var refused := meter.Charge(lim, Width(dir.entries));
        if refused.Some? { return Failed(refused.value, meter.Spent()); }
        if dir.truncated { return Failed(TruncatedTree, meter.Spent()); }
        paths := paths + Blobs(dir.path, dir.entries);
        var dirs := QueueChildren(lower, want, dir.path, dir.entries);
        if dirs.None? { return Failed(MissingSha, meter.Spent()); }
        EnteredWeight(lower, want, dir.path, dir.entries);
        WeightConcat(queue, dirs.value);
        queue := queue + dirs.value;
      }
    }
    return Listed(paths, meter.Spent());
  }

  /** The part of `fetchRepoFiles` that decides which files are read: each once, and exactly the
      wanted files of the repository, unless a walk had to find them and some were shadowed. */
  method ChooseFiles(lower: string -> string, want: Want, lim: Limits, root: Dir, answer: Recursive) returns (r: Outcome)
    requires root.path == ""
    ensures r == Chosen(lower, want, lim, root, answer)
    ensures r.Listed? ==> Distinct(r.paths)
    ensures r.Listed? ==>
      ((forall f :: f in r.paths <==> f in Files("", root.entries) && Wanted(lower, want, f))
       <==> answer.Complete? || Unshadowed(lower, want, root))
    ensures r.Listed? && answer.Partial? ==>
      forall x | Owner(lower, want, root, x) :: !Truncated(lower, want, root, x) && !Unnamed(lower, want, root, x)
    ensures r.Failed? ==> Excused(lower, want, lim, root, answer, r.error)
  {
    hide Walk, Files, Wanted, Unshadowed, Owner, Truncated, Unnamed, Excused;
    ChosenExact(lower, want, lim, root, answer);
    ChosenExplained(lower, want, lim, root, answer);
    var meter := new Meter();
    var refused := meter.Charge(lim, if answer.Partial? then answer.entries else AllEntries(root.entries));
    if refused.Some? { return Failed(refused.value, meter.Spent()); }
    var paths := NormalizeAll(RawFiles("", root.entries));
    if answer.Partial? {
      r := WalkTree(lower, want, lim, root, meter);
      if r.Failed? { return; }
      paths := r.paths;
    }
    var kept := Dedupe([], Select(lower, want, paths));
    if |kept| > lim.maxFiles { return Failed(FileCountLimit, meter.Spent()); }
    return Listed(kept, meter.Spent());
  }
}
