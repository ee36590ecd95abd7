/** identity of scripts/catalog_decisions.py: the canonical owner/repository name of a recorded repository. */
module Identities {
  import opened Wrappers
  import opened Json
  import opened Pointers
  import opened Strings

  /** The parts urlsplit finds. */
  datatype Url = Url(scheme: string, netloc: string, path: string, query: string, fragment: string)

  /** What Python's text functions answer: str.isspace on one character, str.lower, and urlsplit, None where it
      raises. */
  datatype Python = Python(space: char -> bool, lower: string -> string, split: string -> Option<Url>)

  const GITHUB: string := "https://github.com/"

  function Repository(name: string): string { GITHUB + name }

  predicate IsOwner(s: string) {
    s != [] && IsAlnum(s[0]) && forall i | 0 <= i < |s| :: IsAlnum(s[i]) || s[i] == '-'
  }

  predicate IsRepository(s: string) {
    && s != [] && s != "." && s != ".."
    && forall i | 0 <= i < |s| :: IsAlnum(s[i]) || s[i] == '_' || s[i] == '.' || s[i] == '-'
  }

  /** NAME matches, and the part after the slash is not "." or "..". */
  predicate ValidName(name: string) {
    exists k | 0 <= k < |name| :: name[k] == '/' && IsOwner(name[..k]) && IsRepository(name[k + 1..])
  }

  predicate Refused(py: Python, c: char) {
    py.space(c) || c as int < 32 || 127 <= c as int <= 159
  }

  function StripLeft(s: string): string {
    if s != "" && s[0] == '/' then StripLeft(s[1..]) else s
  }

  /** The owner/repository part of a public GitHub URL. */
  function NamedByUrl(py: Python, s: string): Option<string> {
    match py.split(s)
    case None => None
    case Some(url) =>
      if url.scheme != "https" || py.lower(url.netloc) != "github.com" || url.query != "" || url.fragment != ""
      then None
      else
        var parts := Split(StripSlashes(StripLeft(url.path)));
        if |parts| < 2 then None else Some(parts[0] + "/" + parts[1])
  }

  function NameFrom(py: Python, s: string): (r: Option<string>)
    ensures r.Some? ==> ValidName(r.value)
  {
    var name := py.lower(RemoveGit(s));
    if ValidName(name) then Some(name) else None
  }

  function Identity(py: Python, v: Json): (r: Option<string>)
    ensures r.Some? ==> ValidName(r.value)
  {
    match v
    case Str(s) =>
      if exists i | 0 <= i < |s| :: Refused(py, s[i]) then None
      else if Contains(s, "://") then
        (match NamedByUrl(py, s)
         case Some(name) => NameFrom(py, name)
         case None => None)
      else NameFrom(py, s)
    case _ => None
  }

  // ---------------------------------------------------------------- what is known of Python's text functions

  predicate Printable(s: string) {
    forall i | 0 <= i < |s| :: '!' <= s[i] <= '~'
  }

  predicate NoCapitals(s: string) {
    forall i | 0 <= i < |s| :: !('A' <= s[i] <= 'Z')
  }

  predicate PathText(s: string) {
    forall i | 0 <= i < |s| :: IsAlnum(s[i]) || s[i] in "_.-/"
  }

  /** No printable ASCII character is a space; lower changes printable ASCII letter by letter and leaves no ASCII
      capital anywhere; and urlsplit takes a plain path of github.com apart as it should. */
  ghost predicate Standard(py: Python) {
    && (forall c | '!' <= c <= '~' :: !py.space(c))
    && (forall s | Printable(s) :: py.lower(s) == Lower(s))
    && (forall s :: NoCapitals(py.lower(s)))
    && (forall path | PathText(path) :: py.split(GITHUB + path) == Some(Url("https", "github.com", "/" + path, "", "")))
  }

  /** What identity returns: a valid name in lower case. */
  predicate IsName(n: string) {
    ValidName(n) && NoCapitals(n)
  }

  lemma IdentityIsName(py: Python, v: Json)
    requires Standard(py) && Identity(py, v).Some?
    ensures IsName(Identity(py, v).value)
  {
  }

  lemma LowerKeeps(s: string)
    requires NoCapitals(s)
    ensures Lower(s) == s
  {
  }

  // ---------------------------------------------------------------- the URL of a recorded name

  /** What identity makes of the URL of a recorded name: the name with one more ".git" removed, if that is a name. */
  function Survivor(n: string): Option<string> {
    if ValidName(RemoveGit(n)) then Some(RemoveGit(n)) else None
  }

  lemma NameParts(n: string) returns (owner: string, repository: string)
    requires ValidName(n)
    ensures n == owner + "/" + repository && IsOwner(owner) && IsRepository(repository)
  {
    var k :| 0 <= k < |n| && n[k] == '/' && IsOwner(n[..k]) && IsRepository(n[k + 1..]);
    owner, repository := n[..k], n[k + 1..];
  }

  lemma NameIsPath(n: string)
    requires ValidName(n)
    ensures PathText(n) && Printable(n) && n != "" && n[0] != '/' && n[|n| - 1] != '/'
  {
    var owner, repository := NameParts(n);
    assert PathText(owner) && PathText(repository);
    assert n[0] == owner[0] && n[|n| - 1] == repository[|repository| - 1];
  }

  lemma NameSplits(n: string)
    requires ValidName(n)
    ensures |Split(n)| == 2 && Split(n)[0] + "/" + Split(n)[1] == n
  {
    var owner, repository := NameParts(n);
    SplitConcat(owner, repository);
    SplitPlain(repository);
  }

  lemma {:induction false} ContainsLater(s: string, t: string, i: nat)
    requires i <= |s| && t <= s[i..]
    ensures Contains(s, t)
  {
    if i > 0 {
      assert s[1..][i - 1..] == s[i..];
      ContainsLater(s[1..], t, i - 1);
    }
  }

  lemma UrlIsClean(py: Python, n: string)
    requires Standard(py) && Printable(n)
    ensures forall i | 0 <= i < |Repository(n)| :: !Refused(py, Repository(n)[i])
  {
    assert Printable(GITHUB);
    assert Printable(Repository(n));
  }

  lemma UrlHasScheme(n: string)
    ensures Contains(Repository(n), "://")
  {
    assert GITHUB[5..] == "://" + "github.com/";
    ContainsLater(Repository(n), "://", 5);
  }

  lemma StripsToName(n: string)
    requires n != "" && n[0] != '/' && n[|n| - 1] != '/'
    ensures StripSlashes(StripLeft("/" + n)) == n
  {
    var path := "/" + n;
    assert path[1..] == n;
    assert StripLeft(n) == n && StripLeft(path) == n;
  }

  lemma HostIsLower(py: Python)
    requires Standard(py)
    ensures py.lower("github.com") == "github.com"
  {
    LowerKeeps("github.com");
    assert Printable("github.com");
  }

  lemma UrlNames(py: Python, n: string)
    requires Standard(py) && ValidName(n)
    ensures NamedByUrl(py, Repository(n)) == Some(n)
  {
    NameIsPath(n);
    NameSplits(n);
    HostIsLower(py);
    StripsToName(n);
    assert py.split(Repository(n)) == Some(Url("https", "github.com", "/" + n, "", ""));
  }

  lemma NameFromItself(py: Python, n: string)
    requires Standard(py) && Printable(n) && NoCapitals(n)
    ensures NameFrom(py, n) == Survivor(n)
  {
    var m := RemoveGit(n);
    assert Printable(m) && NoCapitals(m);
    LowerKeeps(m);
  }

  /** For every recorded name: the URL its record carries identifies the name with one more ".git" removed, or nothing
      when that leaves no name. */
  lemma UrlOfNameIdentifies(py: Python, n: string)
    requires Standard(py) && IsName(n)
    ensures Identity(py, Str(Repository(n))) == Survivor(n)
  {
    NameIsPath(n);
    UrlIsClean(py, n);
    UrlHasScheme(n);
    UrlNames(py, n);
    NameFromItself(py, n);
  }

  // ---------------------------------------------------------------- names whose URL is lost or taken

  lemma {:induction false} NoSchemeWithoutColon(s: string)
    requires ':' !in s
    ensures !Contains(s, "://")
  {
    assert "://"[0] == ':';
    if s != "" {
      NoSchemeWithoutColon(s[1..]);
    }
  }

  /** A plain text: one ".git" is removed, then it is lowered. */
  lemma PlainIdentity(py: Python, s: string, name: string)
    requires Standard(py) && Printable(s) && ':' !in s && Lower(RemoveGit(s)) == name && ValidName(name)
    ensures Identity(py, Str(s)) == Some(name)
  {
    NoSchemeWithoutColon(s);
    assert Printable(RemoveGit(s));
  }

  lemma JoinedName(owner: string, repository: string)
    requires IsOwner(owner) && IsRepository(repository)
    ensures ValidName(owner + "/" + repository)
  {
    var n := owner + "/" + repository;
    assert n[|owner|] == '/' && n[..|owner|] == owner && n[|owner| + 1..] == repository;
  }

  lemma GitIsRemoved(s: string)
    ensures RemoveGit(s + ".git") == s
  {
    var t := s + ".git";
    assert t[|t| - 4..] == ".git" && t[..|t| - 4] == s;
  }

  /** Any name is what is recorded of it with ".git" behind it. */
  lemma WithGit(py: Python, n: string)
    requires Standard(py) && IsName(n)
    ensures Identity(py, Str(n + ".git")) == Some(n)
  {
    NameIsPath(n);
    GitIsRemoved(n);
    LowerKeeps(n);
    PlainIdentity(py, n + ".git", n);
  }

  lemma GitNameIsName(m: string)
    requires IsName(m)
    ensures IsName(m + ".git")
  {
    var owner, repository := NameParts(m);
    var longer := repository + ".git";
    RepositoryWithGit(repository);
    assert m + ".git" == owner + "/" + longer;
    JoinedName(owner, longer);
  }

  lemma RepositoryWithGit(repository: string)
    requires IsRepository(repository)
    ensures IsRepository(repository + ".git")
  {
    assert |repository + ".git"| > 4;
  }

  /** Every name with ".git" behind it is itself a name that can be recorded, and its URL identifies another. */
  lemma GitNameIsTaken(py: Python, m: string)
    requires Standard(py) && IsName(m)
    ensures var n := m + ".git"; IsName(n) && Identity(py, Str(n + ".git")) == Some(n) && Survivor(n) == Some(m)
  {
    GitNameIsName(m);
    WithGit(py, m + ".git");
    GitIsRemoved(m);
  }

  lemma CapitalsLower(m: string)
    requires NoCapitals(m)
    ensures Lower(m + ".GIT") == m + ".git" && RemoveGit(m + ".GIT") == m + ".GIT"
  {
    var s := m + ".GIT";
    assert s[|s| - 4..] == ".GIT" != ".git";
    assert forall i | 0 <= i < |m| :: s[i] == m[i];
    assert Lower(s) == m + ".git";
  }

  /** The same name comes from a suffix in capitals, which is lowered only after the removal. */
  lemma CapitalGitIsKept(py: Python, m: string)
    requires Standard(py) && IsName(m)
    ensures Identity(py, Str(m + ".GIT")) == Some(m + ".git")
  {
    NameIsPath(m);
    GitNameIsName(m);
    CapitalsLower(m);
    PlainIdentity(py, m + ".GIT", m + ".git");
  }

  lemma NoRepositoryNoName(owner: string)
    requires '/' !in owner
    ensures !ValidName(owner + "/")
  {
    var m := owner + "/";
    assert forall k | 0 <= k < |owner| :: m[k] == owner[k];
    assert m[|owner| + 1..] == "";
  }

  lemma BareName(owner: string, repository: string)
    requires IsOwner(owner) && NoCapitals(owner) && IsRepository(repository) && NoCapitals(repository)
    ensures IsName(owner + "/" + repository)
  {
    JoinedName(owner, repository);
  }

  /** A repository called ".git" can be recorded too, and its URL identifies nothing. */
  lemma BareGitIsLost(py: Python, owner: string)
    requires Standard(py) && IsOwner(owner) && NoCapitals(owner)
    ensures var n := owner + "/" + ".git"; IsName(n) && Identity(py, Str(n + ".git")) == Some(n) && Survivor(n) == None
  {
    BareName(owner, ".git");
    WithGit(py, owner + "/" + ".git");
    GitIsRemoved(owner + "/");
    NoRepositoryNoName(owner);
  }
}
