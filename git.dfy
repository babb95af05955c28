/** The decision logic of the wrapper around a git working tree.  The
    repository is abstract state: the checked-out branch, the local branches
    and the remote-tracking branches of `origin` with the commit each points
    at, the upstream configuration, the ids of the commits held locally,
    and the branches of the origin repository itself together with whether
    it can be reached.  Transport, the contents of objects and the working
    tree are not modelled. */
module Git {
  import opened Common
  import opened Files

  datatype GitError =
    | RefNotFound(name: string)        // a start point or ref that does not resolve
    | UnresolvedRevision(rev: string)  // a reset target that does not resolve
    | NoHead                           // a branch created from an unborn HEAD
    | InvalidRefName(name: string)     // a branch name git does not accept
    | InvalidGitRepo                   // "Invalid git repo"

  /** Everything the model records about one repository. */
  datatype RepoImage = RepoImage(
    gitDirectory: string,
    origin: string,
    branch: string,
    tips: map<string, string>,
    remoteTips: map<string, string>,
    upstream: map<string, string>,
    commits: set<string>,
    remote: map<string, string>,
    remoteReachable: bool)

  /** Every local and remote-tracking branch points at a commit held
      locally. */
  predicate Consistent(image: RepoImage)
  {
    image.tips.Values <= image.commits && image.remoteTips.Values <= image.commits
  }

  /** What `cloneRepo` gives back: a service, null, or an exception. */
  datatype CloneOutcome = Cloned(service: GitService) | NotCloned | CloneThrew

  /** The full names `branchList().setListMode(ALL)` reports. */
  function RefNamesOf(tips: map<string, string>, remoteTips: map<string, string>): (r: set<string>)
    ensures forall b :: b in tips ==> "refs/heads/" + b in r
    ensures forall b :: b in remoteTips ==> "refs/remotes/origin/" + b in r
    ensures forall x :: x in r ==>
      (exists b :: b in tips && x == "refs/heads/" + b) || (exists b :: b in remoteTips && x == "refs/remotes/origin/" + b)
  {
    (set b | b in tips :: "refs/heads/" + b) + (set b | b in remoteTips :: "refs/remotes/origin/" + b)
  }

  /** JGit's scan of a ref name, character by character, with `p` the
      character before `s` ('\U{0000}' at the start): no control character,
      space or any of ~ ^ : ? [ * \ DEL; no '.' opening the name or a
      component, following another '.' or ending the name; no '/' opening
      or ending the name or following another '/'; no "@{". */
  predicate RefNameScan(s: string, p: char)
    decreases |s|
  {
    s == [] ||
      var c := s[0];
      && c > ' '
      && c !in {'~', '^', ':', '?', '[', '*', '\\', '\U{007F}'}
      && (c == '.' ==> p != '\U{0000}' && p != '/' && p != '.' && |s| > 1)
      && (c == '/' ==> p != '\U{0000}' && p != '/' && |s| > 1)
      && (c == '{' ==> p != '@')
      && RefNameScan(s[1..], c)
  }

  /** `Repository.isValidRefName`: non-empty, not ending in ".lock", passing
      the scan, and of at least two components. */
  predicate ValidRefName(r: string)
  {
    r != [] && !EndsWith(r, ".lock") && RefNameScan(r, '\U{0000}') && '/' in r
  }

  /** The name check of `branchCreate().setName(name)`. */
  predicate ValidBranchName(name: string)
  {
    ValidRefName("refs/heads/" + name)
  }

  /** A run of lower-case letters passes the scan untouched: the scan
      goes on after it with its last letter as the previous character. */
  lemma {:induction false} ScanLetters(a: string, t: string, p: char)
    requires a != [] && forall i :: 0 <= i < |a| ==> 'a' <= a[i] <= 'z'
    ensures RefNameScan(a + t, p) == RefNameScan(t, a[|a| - 1])
    decreases |a|
  {
    assert (a + t)[1..] == a[1..] + t;
    if |a| > 1 {
      ScanLetters(a[1..], t, a[0]);
    }
  }

  /** Scanning "refs/heads/" + name comes down to scanning the name as the
      component after a '/', which must not be empty. */
  lemma ScanBranchRef(name: string)
    ensures RefNameScan("refs/heads/" + name, '\U{0000}') <==> name != [] && RefNameScan(name, '/')
  {
    assert "refs/heads/" + name == "refs" + ("/" + ("heads" + ("/" + name)));
    ScanLetters("refs", "/" + ("heads" + ("/" + name)), '\U{0000}');
    assert ("/" + ("heads" + ("/" + name)))[1..] == "heads" + ("/" + name);
    ScanLetters("heads", "/" + name, '/');
    assert ("/" + name)[1..] == name;
  }

  /** "refs/heads/" + name ends in ".lock" exactly when the name does. */
  lemma LockSuffixOfBranchRef(name: string)
    ensures EndsWith("refs/heads/" + name, ".lock") <==> EndsWith(name, ".lock")
  {
    var r := "refs/heads/" + name;
    if |name| >= 5 {
      assert r[|r| - 5..] == name[|name| - 5..];
    } else {
      assert r[|r| - 5..][4 - |name|] == r[10] == '/';
    }
  }

  /** The check on "refs/heads/" + name, read on the name alone: it is
      non-empty, does not end in ".lock", and passes the scan as the
      component after a '/'. */
  lemma BranchNameRule(name: string)
    ensures ValidBranchName(name) <==> name != [] && !EndsWith(name, ".lock") && RefNameScan(name, '/')
  {
    ScanBranchRef(name);
    LockSuffixOfBranchRef(name);
    assert ("refs/heads/" + name)[10] == '/';
  }

  /** A ".." anywhere fails the scan. */
  lemma {:induction false} ScanRejectsDotDot(a: string, b: string, p: char)
    ensures !RefNameScan(a + ".." + b, p)
    decreases |a|
  {
    var s := a + ".." + b;
    if a == [] {
      assert s[0] == '.' && s[1..] == ".." [1..] + b;
    } else {
      assert s[0] == a[0] && s[1..] == a[1..] + ".." + b;
      ScanRejectsDotDot(a[1..], b, a[0]);
    }
  }

  /** A space, a control character or a forbidden character anywhere fails
      the scan. */
  lemma {:induction false} ScanRejectsChar(a: string, c: char, b: string, p: char)
    requires c <= ' ' || c in {'~', '^', ':', '?', '[', '*', '\\', '\U{007F}'}
    ensures !RefNameScan(a + [c] + b, p)
    decreases |a|
  {
    var s := a + [c] + b;
    if a == [] {
      assert s[0] == c;
    } else {
      assert s[0] == a[0] && s[1..] == a[1..] + [c] + b;
      ScanRejectsChar(a[1..], c, b, a[0]);
    }
  }

  /** Names git refuses are never created: the empty name, a ".lock"
      ending, a "..", a space or a forbidden character anywhere. */
  lemma RefusedBranchNames(a: string, b: string, c: char)
    requires c <= ' ' || c in {'~', '^', ':', '?', '[', '*', '\\', '\U{007F}'}
    ensures !ValidBranchName("")
    ensures !ValidBranchName(a + ".lock")
    ensures !ValidBranchName(a + ".." + b)
    ensures !ValidBranchName(a + [c] + b)
  {
    BranchNameRule("");
    BranchNameRule(a + ".lock");
    EndsWithAppend(a, ".lock");
    BranchNameRule(a + ".." + b);
    ScanRejectsDotDot(a, b, '/');
    BranchNameRule(a + [c] + b);
    ScanRejectsChar(a, c, b, '/');
  }

  /** A plain lower-case name is accepted. */
  lemma AcceptedBranchNames(name: string)
    requires name != [] && forall i :: 0 <= i < |name| ==> 'a' <= name[i] <= 'z'
    ensures ValidBranchName(name)
  {
    BranchNameRule(name);
    ScanLetters(name, "", '/');
    assert name + "" == name;
    if |name| >= 5 {
      assert name[|name| - 5..][0] == name[|name| - 5] != '.';
    }
  }

  /** The existence test of `newRemoteBranch`: some ref name ends in "/name". */
  predicate BranchTaken(refs: set<string>, name: string): (taken: bool)
    ensures "refs/heads/" + name in refs ==> taken
    ensures "refs/remotes/origin/" + name in refs ==> taken
    ensures refs == {} ==> !taken
  {
    assert "refs/heads/" + name == "refs/heads" + ("/" + name);
    assert "refs/remotes/origin/" + name == "refs/remotes/origin" + ("/" + name);
    EndsWithAppend("refs/heads", "/" + name);
    EndsWithAppend("refs/remotes/origin", "/" + name);
    exists r :: r in refs && EndsWith(r, "/" + name)
  }

  class GitService {
    const gitDirectory: string
    const origin: string
    var branch: string
    var tips: map<string, string>
    var remoteTips: map<string, string>
    var upstream: map<string, string>
    var commits: set<string>
    var remote: map<string, string>
    var remoteReachable: bool

    function Image(): RepoImage
      reads this
    {
      RepoImage(gitDirectory, origin, branch, tips, remoteTips, upstream, commits, remote, remoteReachable)
    }

    /** The repository's refs all resolve to local commits. */
    predicate Valid()
      reads this
    {
      Consistent(Image())
    }

    /** `new GitService(repository)` over a repository in the given state. */
    constructor (image: RepoImage)
      ensures Image() == image
      ensures Consistent(image) ==> Valid()
    {
      gitDirectory, origin := image.gitDirectory, image.origin;
      branch, tips, remoteTips := image.branch, image.tips, image.remoteTips;
      upstream, commits := image.upstream, image.commits;
      remote, remoteReachable := image.remote, image.remoteReachable;
    }

    /** `getBranchName()`: the branch HEAD points at. */
    function BranchName(): (b: string)
      reads this
      ensures b == branch
      ensures CurrentRevision().Some? ==> b in tips
    {
      branch
    }

    /** `getCurrentRevision()`: the commit of the current branch; None where
        the Java code dereferences a null ref and throws. */
    function CurrentRevision(): (r: Option<string>)
      reads this
      ensures r.Some? <==> branch in tips
      ensures r.Some? ==> r.value == tips[branch]
    {
      if branch in tips then Some(tips[branch]) else None
    }

    function RefNames(): set<string>
      reads this
    {
      RefNamesOf(tips, remoteTips)
    }

    /** `switchBranch(name)`: checks out `name`, first creating it from
        `origin/name` with upstream tracking when no local ref exists. */
    method SwitchBranch(name: Option<string>) returns (r: Outcome<GitError>)
      requires Valid()
      modifies this`branch, this`tips, this`upstream
      ensures Valid()
      ensures name.None? || name.value == old(branch) ==> r.Pass? && Image() == old(Image())
      ensures name.Some? && name.value != old(branch) && name.value in old(tips) ==>
        r.Pass? && branch == name.value && tips == old(tips) && upstream == old(upstream)
      ensures name.Some? && name.value != old(branch) && name.value !in old(tips) && name.value in remoteTips ==>
        && r.Pass? && branch == name.value
        && tips == old(tips)[name.value := remoteTips[name.value]]
        && upstream == old(upstream)[name.value := "origin/" + name.value]
      ensures name.Some? && name.value != old(branch) && name.value !in old(tips) && name.value !in remoteTips ==>
        r == Fail(RefNotFound("origin/" + name.value)) && Image() == old(Image())
      ensures r.Pass? && name.Some? ==> branch == name.value
    {
      if name.Some? && branch != name.value {
        var n := name.value;
        if n !in tips {
          if n !in remoteTips {
            return Fail(RefNotFound("origin/" + n));
          }
          tips := tips[n := remoteTips[n]];
          upstream := upstream[n := "origin/" + n];
        }
        branch := n;
      }
      r := Pass;
    }

    /** `resetToRev(revision)`: a hard reset of the current branch. */
    method ResetToRev(revision: Option<string>) returns (r: Outcome<GitError>)
      requires Valid()
      modifies this`tips
      ensures Valid()
      ensures revision.None? ==> r.Pass? && tips == old(tips)
      ensures revision.Some? && revision.value in commits ==>
        r.Pass? && tips == old(tips)[branch := revision.value]
      ensures revision.Some? && revision.value !in commits ==>
        r == Fail(UnresolvedRevision(revision.value)) && tips == old(tips)
    {
      r := Pass;
      if revision.Some? {
        if revision.value !in commits {
          return Fail(UnresolvedRevision(revision.value));
        }
        tips := tips[branch := revision.value];
      }
    }

    /** `branchList().setListMode(ALL).call()`: every ref name, in some order. */
    method ListRefs() returns (refs: seq<string>)
      ensures forall r :: r in refs <==> r in RefNames()
    {
      var rest := RefNames();
      refs := [];
      while rest != {}
        invariant rest <= RefNames()
        invariant forall r :: r in refs <==> r in RefNames() - rest
        decreases rest
      {
        var r :| r in rest;
        refs := refs + [r];
        rest := rest - {r};
      }
    }

    /** `newRemoteBranch(name)`: after a pruning fetch, creates `name` at
        HEAD and pushes it, unless some ref already ends in "/name".  The
        fetch brings the origin's commits into the local repository. */
    method NewRemoteBranch(name: string) returns (r: Result<bool, GitError>)
      requires Valid()
      modifies this`remoteTips, this`tips, this`remote, this`commits
      ensures Valid()
      ensures !old(remoteReachable) ==> r == Ok(false) && Image() == old(Image())
      ensures old(remoteReachable) ==> commits == old(commits) + old(remote).Values
      ensures old(remoteReachable) && BranchTaken(RefNamesOf(old(tips), old(remote)), name) ==>
        r == Ok(false) && tips == old(tips) && remote == old(remote) && remoteTips == old(remote)
      ensures old(remoteReachable) && !BranchTaken(RefNamesOf(old(tips), old(remote)), name) && !ValidBranchName(name) ==>
        r == Err(InvalidRefName(name)) && tips == old(tips) && remote == old(remote) && remoteTips == old(remote)
      ensures old(remoteReachable) && !BranchTaken(RefNamesOf(old(tips), old(remote)), name) && ValidBranchName(name)
              && branch !in old(tips) ==>
        r == Err(NoHead) && tips == old(tips) && remote == old(remote) && remoteTips == old(remote)
      ensures old(remoteReachable) && !BranchTaken(RefNamesOf(old(tips), old(remote)), name) && ValidBranchName(name)
              && branch in old(tips) ==>
        && r == Ok(true)
        && tips == old(tips)[name := old(tips)[branch]]
        && remote == old(remote)[name := old(tips)[branch]]
        && remoteTips == remote
      ensures r == Ok(true) ==> ValidBranchName(name) && name in tips && name in remote && remote[name] == tips[name]
    {
      if !remoteReachable {
        return Ok(false);
      }
      remoteTips := remote;
      commits := commits + remote.Values;
      var refs := ListRefs();
      var branchExists := AnyRefEndsWith(refs, name);
      assert branchExists <==> BranchTaken(RefNames(), name) by {
        if BranchTaken(RefNames(), name) {
          var x :| x in RefNames() && EndsWith(x, "/" + name);
          var i :| 0 <= i < |refs| && refs[i] == x;
        }
      }
      if branchExists {
        return Ok(false);
      }
      if !ValidBranchName(name) {
        return Err(InvalidRefName(name));
      }
      if branch !in tips {
        return Err(NoHead);
      }
      var head := tips[branch];
      tips := tips[name := head];
      remote := remote[name := head];
      remoteTips := remoteTips[name := head];
      r := Ok(true);
    }

    /** `cloneRepo(uri, dir)`: nothing happens and null is returned when the
        target directory is given and already exists; otherwise the clone of
        `uri` is opened, or the clone throws.  `produced` is the repository
        the clone creates (None when it fails); its origin is `uri`. */
    static method CloneRepo(uri: string, dir: Option<string>, existing: set<string>, produced: Option<RepoImage>)
      returns (r: CloneOutcome)
      ensures dir.Some? && dir.value in existing ==> r.NotCloned?
      ensures !(dir.Some? && dir.value in existing) && produced.None? ==> r.CloneThrew?
      ensures !(dir.Some? && dir.value in existing) && produced.Some? ==>
        r.Cloned? && fresh(r.service) && r.service.Image() == produced.value.(origin := uri)
        && (Consistent(produced.value) ==> r.service.Valid())
    {
      if dir.Some? && dir.value in existing {
        return NotCloned;
      }
      if produced.None? {
        return CloneThrew;
      }
      var service := new GitService(produced.value.(origin := uri));
      r := Cloned(service);
    }
  }

  /** The loop of `newRemoteBranch` over the listed refs, stopping at the
      first name that ends in "/name". */
  method AnyRefEndsWith(refs: seq<string>, name: string) returns (found: bool)
    ensures found <==> exists i :: 0 <= i < |refs| && EndsWith(refs[i], "/" + name)
  {
    found := false;
    var i := 0;
    while i < |refs|
      invariant 0 <= i <= |refs|
      invariant forall j :: 0 <= j < i ==> !EndsWith(refs[j], "/" + name)
    {
      if EndsWith(refs[i], "/" + name) {
        found := true;
        break;
      }
      i := i + 1;
    }
  }

  /** `createGitService(path)`: the git directory the service is opened on.
      A path not ending in ".git" stands for its ".git" child; the result
      must be a readable, writable directory, else "Invalid git repo". */
  function CreateGitService(path: Option<string>, fs: FileSystemView): (r: Result<string, GitError>)
    ensures r.Err? ==> r.error == InvalidGitRepo
    ensures r.Ok? ==> UsableDirectory(fs, r.value)
    ensures path.None? ==> r.Err?
    ensures path.Some? && EndsWith(path.value, ".git") ==>
      (r.Ok? <==> UsableDirectory(fs, path.value)) && (r.Ok? ==> r.value == path.value)
    ensures path.Some? && !EndsWith(path.value, ".git") ==>
      var child := ChildDirectoryIfExists(fs, path.value, ".git");
      (r.Ok? <==> child.Some? && UsableDirectory(fs, child.value)) && (r.Ok? ==> r == Ok(child.value))
  {
    if path.None? then Err(InvalidGitRepo)
    else
      var dir := if EndsWith(path.value, ".git") then path else ChildDirectoryIfExists(fs, path.value, ".git");
      if dir.Some? && UsableDirectory(fs, dir.value) then Ok(dir.value) else Err(InvalidGitRepo)
  }

  /** Behind a prefix ending in '/', a ref ends in "/name" (for a name
      without '/') exactly when the branch is `name` or ends in "/name". */
  lemma EndsWithSlashName(p: string, b: string, name: string)
    requires p != [] && p[|p| - 1] == '/'
    requires forall i :: 0 <= i < |name| ==> name[i] != '/'
    ensures EndsWith(p + b, "/" + name) <==> (b == name || EndsWith(b, "/" + name))
  {
    var s := "/" + name;
    var t := p + b;
    if |s| <= |b| {
      assert t[|t| - |s|..] == b[|b| - |s|..];
    } else if |s| == |b| + 1 {
      assert t[|t| - |s|..] == "/" + b;
      if EndsWith(t, s) {
        assert b == s[1..] == name;
      }
    } else if |s| <= |t| {
      var k := |s| - |b| - 1;
      assert 1 <= k < |s|;
      assert t[|t| - |s|..][k] == t[|p| - 1] == '/';
      assert s[k] == name[k - 1];
    }
  }

  /** For a branch name without '/', `newRemoteBranch` treats it as taken
      exactly when a local or remote branch has that name or ends in
      "/name". */
  lemma {:induction false} BranchTakenWithoutSlash(tips: map<string, string>, remoteTips: map<string, string>, name: string)
    requires forall i :: 0 <= i < |name| ==> name[i] != '/'
    ensures BranchTaken(RefNamesOf(tips, remoteTips), name) <==>
      exists b :: (b in tips || b in remoteTips) && (b == name || EndsWith(b, "/" + name))
  {
    var heads, remotes := "refs/heads/", "refs/remotes/origin/";
    if BranchTaken(RefNamesOf(tips, remoteTips), name) {
      var r :| r in RefNamesOf(tips, remoteTips) && EndsWith(r, "/" + name);
      if b :| b in tips && r == heads + b {
        EndsWithSlashName(heads, b, name);
      } else {
        var b :| b in remoteTips && r == remotes + b;
        EndsWithSlashName(remotes, b, name);
      }
    }
    if b :| (b in tips || b in remoteTips) && (b == name || EndsWith(b, "/" + name)) {
      if b in tips {
        EndsWithSlashName(heads, b, name);
        assert heads + b in RefNamesOf(tips, remoteTips);
      } else {
        EndsWithSlashName(remotes, b, name);
        assert remotes + b in RefNamesOf(tips, remoteTips);
      }
    }
  }

  /** The suffix test also matches nested branch names: a local branch
      "team/x" keeps `newRemoteBranch("x")` from creating "x". */
  lemma NestedBranchBlocksCreation(tips: map<string, string>, remoteTips: map<string, string>)
    requires "team/x" in tips
    requires "x" !in tips && "x" !in remoteTips
    ensures BranchTaken(RefNamesOf(tips, remoteTips), "x")
  {
    var r := "refs/heads/" + "team/x";
    assert r in RefNamesOf(tips, remoteTips);
    assert r[|r| - 2..] == "/x";
  }
}
