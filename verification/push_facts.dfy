/** Properties of PushParser.parse that relate several calls or single out
    particular payloads. */
module PushFacts {
  import opened Wrappers
  import opened Json
  import opened GitHub
  import Strings

  /** Text that is not JSON is refused with the parser's one message. */
  lemma UnreadableTextIsInvalid()
    ensures Parse(None) == Failure(InvalidPayload("Invalid GitHub push payload"))
  {
  }

  /** Leaving out any member the parser dereferences refuses the whole
      payload; no partly filled push comes back. */
  lemma MissingTopLevelKeyIsInvalid(root: Json, key: string)
    requires key in {"after", "before", "ref", "compare", "created", "deleted", "forced", "commits", "pusher", "repository"}
    requires !Has(root, key)
    ensures Parse(Some(root)) == Failure(Invalid)
  {
  }

  lemma MissingNestedKeyIsInvalid(root: Json, parent: string, key: string)
    requires parent == "pusher" ==> key == "name"
    requires parent == "repository" ==> key in {"owner", "id", "name", "clone_url"}
    requires parent == "pusher" || parent == "repository"
    requires Has(root, parent) && !Has(Field(root, parent), key)
    ensures Parse(Some(root)) == Failure(Invalid)
  {
  }

  /** A present head_commit that is JSON null is refused: the parser only
      tests the member for Java null and then reads "author" from it. */
  lemma NullHeadCommitIsInvalid(root: Json)
    requires Has(root, "head_commit") && Field(root, "head_commit") == JNull
    ensures Parse(Some(root)) == Failure(Invalid)
  {
  }

  /** An absent head_commit is no error: the push simply has none. */
  lemma AbsentHeadCommitIsAllowed(root: Json)
    requires !Has(root, "head_commit")
    requires Parse(Some(root)).Success?
    ensures Parse(Some(root)).value.headCommit == None
  {
  }

  /** A required leaf that is JSON null is read, not refused. */
  lemma NullLeavesAreRead(root: Json)
    requires PushShape(root)
    requires Field(root, "after") == JNull && Field(root, "forced") == JNull
    ensures Parse(Some(root)).Success?
    ensures Parse(Some(root)).value.after == "null"
    ensures !Parse(Some(root)).value.forced
  {
  }

  /** base_ref is null when absent or JSON null and its text otherwise. */
  lemma BaseRefReading(root: Json)
    requires Parse(Some(root)).Success?
    ensures var b := Parse(Some(root)).value.baseRef;
      && (!Has(root, "base_ref") ==> b == None)
      && (Has(root, "base_ref") && Field(root, "base_ref") == JNull ==> b == None)
      && (Has(root, "base_ref") && Field(root, "base_ref") != JNull ==> b == Some(TextOf(root, "base_ref")))
  {
  }

  /** Committer emails are optional, author emails of pushed commits are
      not: a commit element whose author has no "email" refuses the push,
      one whose committer has none yields a null email. */
  lemma CommitEmails(root: Json, i: nat)
    requires Has(root, "commits") && Field(root, "commits").JArray?
    requires i < |Field(root, "commits").items|
    ensures var c := Field(root, "commits").items[i];
      Has(c, "author") && !Has(Field(c, "author"), "email") ==> Parse(Some(root)).Failure?
    ensures var c := Field(root, "commits").items[i];
      Parse(Some(root)).Success? && !Has(Field(c, "committer"), "email") ==>
        Parse(Some(root)).value.commits[i].committer.email == None
  {
  }

  /** `ref` loses every literal "refs/heads/" and nothing else ... */
  lemma RefOfBranch()
    ensures NormaliseRef("refs/heads/main") == "main"
  {
    Strings.ReplaceAllLeading(BranchPrefix, "main", "");
    assert !Strings.Occurs(BranchPrefix, "main");
    Strings.ReplaceAllWithoutOccurrence("main", BranchPrefix, "");
  }

  /** ... is passed through unchanged exactly when it has no occurrence ... */
  lemma RefUnchangedIff(ref: string)
    ensures NormaliseRef(ref) == ref <==> !Strings.Occurs(BranchPrefix, ref)
  {
    Strings.RemoveAllUnchangedIff(ref, BranchPrefix);
  }

  /** "refs/" in front of a ref is kept: no occurrence starts inside it. */
  lemma RefKeepsLeadingRefs(rest: string)
    ensures NormaliseRef("refs/" + BranchPrefix + rest) == "refs/" + NormaliseRef(rest)
  {
    var t := BranchPrefix + rest;
    var s := "refs/" + t;
    forall i: nat | i < 5
      ensures !Strings.OccursAt(s, BranchPrefix, i)
    {
      if i == 0 {
        assert s[5] != BranchPrefix[5];
      } else {
        assert s[i] != BranchPrefix[0];
      }
    }
    Strings.ReplaceAllSkipsPrefix("refs/", t, BranchPrefix, "");
    Strings.ReplaceAllLeading(BranchPrefix, rest, "");
    assert "refs/" + BranchPrefix + rest == s;
  }

  /** ... and the removal is a single left-to-right pass, not a prefix
      strip repeated to a fixed point: "refs/refs/heads/heads/x" becomes
      "refs/heads/x", which still holds an occurrence. */
  lemma RefReplaceIsOnePass(branch: string)
    requires !Strings.Occurs(BranchPrefix, "heads/" + branch)
    ensures NormaliseRef("refs/" + BranchPrefix + "heads/" + branch) == BranchPrefix + branch
    ensures Strings.Occurs(BranchPrefix, NormaliseRef("refs/" + BranchPrefix + "heads/" + branch))
  {
    RefKeepsLeadingRefs("heads/" + branch);
    Strings.ReplaceAllWithoutOccurrence("heads/" + branch, BranchPrefix, "");
    assert "refs/" + BranchPrefix + "heads/" + branch == "refs/" + BranchPrefix + ("heads/" + branch);
    assert "refs/" + ("heads/" + branch) == BranchPrefix + branch;
    assert Strings.OccursAt(BranchPrefix + branch, BranchPrefix, 0);
  }

  /* A sample push: the values the repository's parser test asserts. */

  function SampleAuthor(): Json {
    JObject(map["name" := JText("name"), "email" := JText("name@example.com")])
  }

  function SampleCommit(): Json {
    JObject(map[
      "author" := SampleAuthor(), "committer" := SampleAuthor(), "distinct" := JBool(true),
      "id" := JText("e5f6g7h8"), "message" := JText("Update README"),
      "timestamp" := JText("2026-01-01T00:00:00Z"), "tree_id" := JText("t1"),
      "url" := JText("https://github.com/user/repo/commit/e5f6g7h8")])
  }

  function SampleRepository(): Json {
    JObject(map[
      "id" := JInt(1), "name" := JText("repo"),
      "clone_url" := JText("https://github.com/user/repo.git"),
      "owner" := JObject(map["name" := JText("user")])])
  }

  function SamplePush(): Json {
    JObject(map[
      "after" := JText("e5f6g7h8"), "before" := JText("a1b2c3d4"),
      "ref" := JText("refs/heads/main"), "compare" := JText("https://github.com/user/repo/compare"),
      "created" := JBool(false), "deleted" := JBool(false), "forced" := JBool(false),
      "base_ref" := JNull, "commits" := JArray([SampleCommit()]), "head_commit" := SampleCommit(),
      "pusher" := JObject(map["name" := JText("name")]), "repository" := SampleRepository()])
  }

  lemma SampleCommitShape()
    ensures CommitShape(SampleCommit(), true)
    ensures CommitShape(SampleCommit(), false)
    ensures TextOf(SampleCommit(), "message") == "Update README"
  {
    var c := SampleCommit();
    assert Field(c, "author") == SampleAuthor();
    assert Field(c, "committer") == SampleAuthor();
    assert AuthorShape(SampleAuthor(), true);
  }

  lemma SamplePushShape()
    ensures PushShape(SamplePush())
  {
    var root := SamplePush();
    SampleCommitShape();
    assert RepositoryShape(SampleRepository());
    assert Field(root, "commits") == JArray([SampleCommit()]);
    assert CommitsShape(Field(root, "commits"));
    assert Field(root, "head_commit") == SampleCommit();
    assert Field(root, "pusher") == JObject(map["name" := JText("name")]);
    assert Field(root, "repository") == SampleRepository();
  }

  /** A push whose ref is "refs/heads/main" and whose after SHA is
      "e5f6g7h8" is accepted as the branch "main" at that SHA, with its
      clone URL, pusher name and head-commit message copied verbatim;
      `SamplePushShape` shows such payloads exist. */
  lemma MainBranchPushParses(root: Json)
    requires PushShape(root)
    requires Field(root, "ref") == JText("refs/heads/main")
    requires Field(root, "after") == JText("e5f6g7h8")
    ensures Parse(Some(root)).Success?
    ensures var p := Parse(Some(root)).value;
      && p.ref == "main"
      && p.after == "e5f6g7h8"
      && p.repository.cloneUrl == TextOf(Field(root, "repository"), "clone_url")
      && p.pusher.name == TextOf(Field(root, "pusher"), "name")
      && (Has(root, "head_commit") ==> p.headCommit.Some? && p.headCommit.value.message == TextOf(Field(root, "head_commit"), "message"))
  {
    RefOfBranch();
  }
}
