// The string half of cache.go: which directory name a repository gets, and where
// its checkout stands.
module RepoNames {
  import opened Strings
  import opened Paths
  import SourceCache

  /** unicode.IsSpace. */
  predicate IsSpace(c: char) {
    || '\t' <= c <= '\r' || c == ' ' || c == '\U{85}' || c == '\U{A0}' || c == '\U{1680}'
    || '\U{2000}' <= c <= '\U{200A}' || c == '\U{2028}' || c == '\U{2029}' || c == '\U{202F}'
    || c == '\U{205F}' || c == '\U{3000}'
  }

  function TrimLeftSpace(s: string): string {
    if s != "" && IsSpace(s[0]) then TrimLeftSpace(s[1..]) else s
  }

  function TrimRightSpace(s: string): string {
    if s != "" && IsSpace(s[|s| - 1]) then TrimRightSpace(s[..|s| - 1]) else s
  }

  function TrimSpace(s: string): string {
    TrimRightSpace(TrimLeftSpace(s))
  }

  /** RepoName: the basename of the trimmed URL without ".git". */
  function RepoName(url: string): string {
    TrimSuffix(Base(TrimRightSlashes(TrimSpace(url))), ".git")
  }

  function RunDirPath(root: string, runId: string): string {
    JoinPath(JoinPath(root, "checkouts"), runId)
  }

  function CheckoutDirPath(root: string, runId: string, repoName: string): string {
    JoinPath(RunDirPath(root, runId), repoName)
  }

  lemma {:induction false} TrimRightSlashesTwice(s: string)
    ensures TrimRightSlashes(TrimRightSlashes(s)) == TrimRightSlashes(s)
  {
  }

  /** The accepted repository names are exactly those that are one ordinary path
      component, for every URL. */
  lemma AcceptedNameIsOneComponent(url: string)
    ensures SourceCache.ValidRepoName(RepoName(url)) <==> Proper(RepoName(url))
  {
    var trimmed := TrimRightSlashes(TrimSpace(url));
    TrimRightSlashesTwice(TrimSpace(url));
    var base := Base(trimmed);
    assert '/' !in base by {
      if trimmed == "" {
        assert base == ".";
      } else {
        assert base == AfterLastSlash(trimmed);
      }
    }
    assert RepoName(url) <= base;
    PrefixMembers(RepoName(url), base);
  }

  lemma {:induction false} TrailingSlashes(s: string, slashes: string)
    requires s != "" && s[|s| - 1] != '/' && forall c :: c in slashes ==> c == '/'
    ensures TrimRightSlashes(s + slashes) == s
    decreases |slashes|
  {
    if slashes == "" {
      assert s + slashes == s;
    } else {
      var n := |slashes| - 1;
      assert slashes[n] in slashes && (s + slashes)[|s + slashes| - 1] == slashes[n];
      assert (s + slashes)[..|s + slashes| - 1] == s + slashes[..n];
      forall c | c in slashes[..n] ensures c == '/' {
        assert c in slashes;
      }
      TrailingSlashes(s, slashes[..n]);
    }
  }

  lemma {:induction false} LastAfterSlash(front: string, name: string)
    requires '/' !in name
    ensures AfterLastSlash(front + "/" + name) == name
    decreases |name|
  {
    var text := front + "/" + name;
    if name != "" {
      var n := |name| - 1;
      assert text[|text| - 1] == name[n] && text[..|text| - 1] == front + "/" + name[..n];
      LastAfterSlash(front, name[..n]);
      assert name == name[..n] + [name[n]];
    }
  }

  lemma {:induction false} NoSpaceAround(s: string)
    requires s != "" && !IsSpace(s[0]) && !IsSpace(s[|s| - 1])
    ensures TrimSpace(s) == s
  {}

  /** A repository is named after the last component of its URL: ".git" and slashes
      behind it do not count. */
  lemma RepoNameIsLastComponent(front: string, name: string, suffix: string, slashes: string)
    requires name != "" && '/' !in name && !HasSuffix(name, ".git")
    requires suffix == "" || suffix == ".git"
    requires forall c :: c in slashes ==> c == '/'
    requires var url := front + "/" + name + suffix + slashes; !IsSpace(url[0]) && !IsSpace(url[|url| - 1])
    ensures RepoName(front + "/" + name + suffix + slashes) == name
  {
    hide TrimSpace, IsSpace, TrimRightSlashes, AfterLastSlash, TrimSuffix;
    var last := name + suffix;
    NoSpaceAround(front + "/" + name + suffix + slashes);
    assert front + "/" + name + suffix + slashes == front + "/" + last + slashes;
    assert '/' !in last by {
      assert '/' !in ".git";
    }
    BaseOf(front, last, slashes);
    WithoutSuffix(name, suffix);
  }

  lemma BaseOf(front: string, last: string, slashes: string)
    requires last != "" && '/' !in last && forall c :: c in slashes ==> c == '/'
    ensures Base(TrimRightSlashes(front + "/" + last + slashes)) == last
  {
    hide TrimRightSlashes, AfterLastSlash;
    var text := front + "/" + last;
    assert last[|last| - 1] in last && text[|text| - 1] == last[|last| - 1];
    TrailingSlashes(text, slashes);
    TrailingSlashes(text, "");
    assert text + "" == text;
    LastAfterSlash(front, last);
  }

  lemma WithoutSuffix(name: string, suffix: string)
    requires !HasSuffix(name, ".git") && (suffix == "" || suffix == ".git")
    ensures TrimSuffix(name + suffix, ".git") == name
  {
    assert name + "" == name;
    assert (name + ".git")[|name|..] == ".git" && (name + ".git")[..|name|] == name;
  }

  lemma ProperJoin(dir: string, name: string)
    requires IsAbs(dir) && Proper(name)
    ensures IsAbs(JoinPath(dir, name)) && Components(JoinPath(dir, name)) == Components(dir) + [name]
  {
    SplitSeparatorFree(name, '/');
    JoinBelow(dir, name);
    ProperIsNormal([name], false);
    RenderInverse(false, [name]);
  }

  /** So a checkout is a direct child of its own run directory, and different runs have
      run directories neither of which contains the other. */
  lemma CheckoutIsChildOfRunDir(root: string, runId: string, otherId: string, url: string)
    requires IsAbs(root) && Proper(runId) && Proper(otherId)
    requires SourceCache.ValidRepoName(RepoName(url))
    ensures Components(CheckoutDirPath(root, runId, RepoName(url))) ==
      Components(RunDirPath(root, runId)) + [RepoName(url)]
    ensures Components(RunDirPath(root, runId)) <= Components(RunDirPath(root, otherId)) ==> runId == otherId
  {
    hide Components, JoinPath, IsAbs, RepoName;
    AcceptedNameIsOneComponent(url);
    ProperJoin(root, "checkouts");
    ProperJoin(JoinPath(root, "checkouts"), runId);
    ProperJoin(JoinPath(root, "checkouts"), otherId);
    ProperJoin(RunDirPath(root, runId), RepoName(url));
    assert Components(RunDirPath(root, otherId))[|Components(root)| + 1] == otherId;
    assert Components(RunDirPath(root, runId))[|Components(root)| + 1] == runId;
  }
}
