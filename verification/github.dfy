/** The GitHub push event and its validation (PushParser.parse).

    The Java parser reads a fixed set of members from the JSON tree; any
    member it dereferences that is absent (Java null) throws, and every
    exception is rethrown as one InvalidPayloadException with a fixed
    message. Members that are present but JSON null do not fail: they read
    as the text "null" or as false. Here a dereference of an absent member
    is a `Failure`, and since the message never depends on which member was
    missing, the order in which the Java code happens to dereference them
    does not matter. */
module GitHub {
  import opened Wrappers
  import opened Json
  import Strings

  /* ---------------------------------------------------------------
     The event model: plain data, no behaviour
     --------------------------------------------------------------- */

  /** A git identity; `email` is Java null (None) where the parser allows it. */
  datatype Author = Author(email: Option<string>, name: string)

  datatype Commit = Commit(
    author: Author,
    committer: Author,
    distinct: bool,
    id: string,
    message: string,
    timestamp: string,
    treeId: string,
    url: string)

  datatype Pusher = Pusher(name: string)

  datatype Repository = Repository(id: string, name: string, cloneUrl: string, owner: Author)

  /** A push notification. `baseRef` and `headCommit` are Java null (None)
      when the payload leaves them out. */
  datatype Push = Push(
    after: string,
    baseRef: Option<string>,
    before: string,
    commits: seq<Commit>,
    compare: string,
    created: bool,
    deleted: bool,
    forced: bool,
    headCommit: Option<Commit>,
    pusher: Pusher,
    ref: string,
    repository: Repository)

  /** InvalidPayloadException: the message is all a caller sees of it. */
  datatype InvalidPayload = InvalidPayload(message: string)

  const InvalidMessage := "Invalid GitHub push payload"

  /** The text removed from `ref` wherever it occurs. */
  const BranchPrefix := "refs/heads/"

  const Invalid := InvalidPayload(InvalidMessage)

  /* ---------------------------------------------------------------
     Which payloads are accepted, stated on the tree directly
     --------------------------------------------------------------- */

  predicate Has(node: Json, key: string) {
    node.JObject? && key in node.fields
  }

  function Field(node: Json, key: string): Json
    requires Has(node, key)
  {
    node.fields[key]
  }

  /** An author object: "name" always needed, "email" only where the
      parser reads it unconditionally. */
  predicate AuthorShape(node: Json, emailRequired: bool) {
    Has(node, "name") && (emailRequired ==> Has(node, "email"))
  }

  predicate CommitShape(node: Json, authorEmailRequired: bool) {
    && Has(node, "author") && Has(node, "committer") && Has(node, "distinct") && Has(node, "id")
    && Has(node, "message") && Has(node, "timestamp") && Has(node, "tree_id") && Has(node, "url")
    && AuthorShape(Field(node, "author"), authorEmailRequired)
    && AuthorShape(Field(node, "committer"), false)
  }

  /** The "commits" member: an array whose every element is a commit, or a
      scalar or empty object, both of which have size zero. A non-empty
      object has a size but no elements to fetch, so it is refused. */
  predicate CommitsShape(node: Json) {
    && (node.JArray? ==> forall i :: 0 <= i < |node.items| ==> CommitShape(node.items[i], true))
    && (node.JObject? ==> |node.fields| == 0)
  }

  predicate RepositoryShape(node: Json) {
    && Has(node, "owner") && Has(node, "id") && Has(node, "name") && Has(node, "clone_url")
    && AuthorShape(Field(node, "owner"), false)
  }

  /** Exactly the trees PushParser.parse accepts. */
  predicate PushShape(root: Json) {
    && Has(root, "after") && Has(root, "before") && Has(root, "ref") && Has(root, "compare")
    && Has(root, "created") && Has(root, "deleted") && Has(root, "forced")
    && Has(root, "commits") && Has(root, "pusher") && Has(root, "repository")
    && Has(Field(root, "pusher"), "name")
    && RepositoryShape(Field(root, "repository"))
    && CommitsShape(Field(root, "commits"))
    && (Has(root, "head_commit") ==> CommitShape(Field(root, "head_commit"), false))
  }

  /* ---------------------------------------------------------------
     What an accepted payload yields, stated field by field
     --------------------------------------------------------------- */

  function TextOf(node: Json, key: string): string
    requires Has(node, key)
  {
    AsText(Field(node, key))
  }

  function NullableTextOf(node: Json, key: string): Option<string> {
    if HasNonNull(node, key) then Some(AsText(node.fields[key])) else None
  }

  predicate AuthorFrom(a: Author, node: Json, emailRequired: bool)
    requires AuthorShape(node, emailRequired)
  {
    && a.name == TextOf(node, "name")
    && a.email == (if emailRequired then Some(TextOf(node, "email")) else NullableTextOf(node, "email"))
  }

  predicate CommitFrom(c: Commit, node: Json, authorEmailRequired: bool)
    requires CommitShape(node, authorEmailRequired)
  {
    && AuthorFrom(c.author, Field(node, "author"), authorEmailRequired)
    && AuthorFrom(c.committer, Field(node, "committer"), false)
    && c.distinct == AsBoolean(Field(node, "distinct"))
    && c.id == TextOf(node, "id")
    && c.message == TextOf(node, "message")
    && c.timestamp == TextOf(node, "timestamp")
    && c.treeId == TextOf(node, "tree_id")
    && c.url == TextOf(node, "url")
  }

  predicate CommitsFrom(cs: seq<Commit>, node: Json)
    requires CommitsShape(node)
  {
    && |cs| == Size(node)
    && (node.JArray? ==> forall i :: 0 <= i < |cs| ==> CommitFrom(cs[i], node.items[i], true))
  }

  predicate RepositoryFrom(repo: Repository, node: Json)
    requires RepositoryShape(node)
  {
    && repo.id == TextOf(node, "id")
    && repo.name == TextOf(node, "name")
    && repo.cloneUrl == TextOf(node, "clone_url")
    && AuthorFrom(repo.owner, Field(node, "owner"), false)
  }

  /** The push an accepted tree stands for. */
  predicate PushFrom(p: Push, root: Json)
    requires PushShape(root)
  {
    && p.after == TextOf(root, "after")
    && p.baseRef == NullableTextOf(root, "base_ref")
    && p.before == TextOf(root, "before")
    && CommitsFrom(p.commits, Field(root, "commits"))
    && p.compare == TextOf(root, "compare")
    && p.created == AsBoolean(Field(root, "created"))
    && p.deleted == AsBoolean(Field(root, "deleted"))
    && p.forced == AsBoolean(Field(root, "forced"))
    && (if Has(root, "head_commit")
        then p.headCommit.Some? && CommitFrom(p.headCommit.value, Field(root, "head_commit"), false)
        else p.headCommit.None?)
    && p.pusher.name == TextOf(Field(root, "pusher"), "name")
    && p.ref == NormaliseRef(TextOf(root, "ref"))
    && RepositoryFrom(p.repository, Field(root, "repository"))
  }

  /* ---------------------------------------------------------------
     PushParser.parse
     --------------------------------------------------------------- */

  /** Calling a method on a node reference: Java null throws. */
  function Deref(node: Option<Json>): (r: Result<Json, InvalidPayload>)
    ensures r.Success? <==> node.Some?
    ensures r.Success? ==> r.value == node.value
    ensures r.Failure? ==> r.error == Invalid
  {
    match node
    case Some(n) => Success(n)
    case None => Failure(Invalid)
  }

  /** `get(key).asText()`. */
  function Text(node: Json, key: string): (r: Result<string, InvalidPayload>)
    ensures r.Success? <==> Has(node, key)
    ensures r.Success? ==> r.value == TextOf(node, key)
    ensures r.Failure? ==> r.error == Invalid
  {
    var v :- Deref(Get(node, key));
    Success(AsText(v))
  }

  /** `get(key).asBoolean()`. */
  function Flag(node: Json, key: string): (r: Result<bool, InvalidPayload>)
    ensures r.Success? <==> Has(node, key)
    ensures r.Success? ==> r.value == AsBoolean(Field(node, key))
    ensures r.Failure? ==> r.error == Invalid
  {
    var v :- Deref(Get(node, key));
    Success(AsBoolean(v))
  }

  /** `new Author(hasNonNull("email") ? get("email").asText() : null,
      get("name").asText())`, or the unconditional read of "email". */
  function ParseAuthor(node: Json, emailRequired: bool): (r: Result<Author, InvalidPayload>)
    ensures r.Success? <==> AuthorShape(node, emailRequired)
    ensures r.Success? ==> AuthorFrom(r.value, node, emailRequired)
    ensures r.Failure? ==> r.error == Invalid
  {
    var email :- if emailRequired then (var e :- Text(node, "email"); Success(Some(e)))
                 else Success(NullableTextOf(node, "email"));
    var name :- Text(node, "name");
    Success(Author(email, name))
  }

  /** One commit object; the array elements require the author's email,
      the head commit does not. */
  function ParseCommit(node: Json, authorEmailRequired: bool): (r: Result<Commit, InvalidPayload>)
    ensures r.Success? <==> CommitShape(node, authorEmailRequired)
    ensures r.Success? ==> CommitFrom(r.value, node, authorEmailRequired)
    ensures r.Failure? ==> r.error == Invalid
  {
    var authorNode :- Deref(Get(node, "author"));
    var committerNode :- Deref(Get(node, "committer"));
    var author :- ParseAuthor(authorNode, authorEmailRequired);
    var committer :- ParseAuthor(committerNode, false);
    var distinct :- Flag(node, "distinct");
    var id :- Text(node, "id");
    var message :- Text(node, "message");
    var timestamp :- Text(node, "timestamp");
    var treeId :- Text(node, "tree_id");
    var url :- Text(node, "url");
    Success(Commit(author, committer, distinct, id, message, timestamp, treeId, url))
  }

  /** The loop over `commitsNode.size()` indices, first `n` of them:
      element i is fetched with get(i) and must be a commit object. */
  function ParseCommits(commitsNode: Json, n: nat): (r: Result<seq<Commit>, InvalidPayload>)
    requires n <= Size(commitsNode)
    ensures r.Success? <==> forall i :: 0 <= i < n ==>
      At(commitsNode, i).Some? && CommitShape(At(commitsNode, i).value, true)
    ensures r.Success? ==> |r.value| == n && forall i :: 0 <= i < n ==>
      At(commitsNode, i).Some? && CommitShape(At(commitsNode, i).value, true) &&
      CommitFrom(r.value[i], At(commitsNode, i).value, true)
    ensures r.Failure? ==> r.error == Invalid
  {
    if n == 0 then Success([])
    else
      var earlier :- ParseCommits(commitsNode, n - 1);
      var element :- Deref(At(commitsNode, n - 1));
      var commit :- ParseCommit(element, true);
      Success(earlier + [commit])
  }

  function ParseHeadCommit(root: Json): (r: Result<Option<Commit>, InvalidPayload>)
    ensures r.Success? <==> (Has(root, "head_commit") ==> CommitShape(Field(root, "head_commit"), false))
    ensures r.Success? && !Has(root, "head_commit") ==> r.value.None?
    ensures r.Success? && Has(root, "head_commit") ==>
      r.value.Some? && CommitFrom(r.value.value, Field(root, "head_commit"), false)
    ensures r.Failure? ==> r.error == Invalid
  {
    match Get(root, "head_commit")
    case None => Success(None)
    case Some(node) =>
      var commit :- ParseCommit(node, false);
      Success(Some(commit))
  }

  /** The whole commits loop: `commitsNode.size()` elements, each fetched
      with get(i). */
  function ParseCommitList(commitsNode: Json): (r: Result<seq<Commit>, InvalidPayload>)
    ensures r.Success? <==> CommitsShape(commitsNode)
    ensures r.Success? ==> CommitsFrom(r.value, commitsNode)
    ensures r.Failure? ==> r.error == Invalid
  {
    var r := ParseCommits(commitsNode, Size(commitsNode));
    if commitsNode.JArray? then
      assert forall i :: 0 <= i < |commitsNode.items| ==> At(commitsNode, i) == Some(commitsNode.items[i]);
      r
    else
      assert commitsNode.JObject? && |commitsNode.fields| > 0 ==> At(commitsNode, 0).None?;
      r
  }

  /** `ref.replace("refs/heads/", "")`: a ref without the prefix is kept
      as it is, and one with it comes out strictly shorter. */
  function NormaliseRef(ref: string): (r: string)
    ensures |r| <= |ref|
    ensures !Strings.Occurs(BranchPrefix, ref) ==> r == ref
    ensures Strings.Occurs(BranchPrefix, ref) ==> |r| < |ref|
  {
    Strings.RemoveAllNeverGrows(ref, BranchPrefix);
    Strings.RemoveAllUnchangedIff(ref, BranchPrefix);
    if Strings.Occurs(BranchPrefix, ref) then
      Strings.RemoveAllShrinksOnOccurrence(ref, BranchPrefix);
      Strings.ReplaceAll(ref, BranchPrefix, "")
    else
      Strings.ReplaceAll(ref, BranchPrefix, "")
  }

  function ParseRepository(node: Json): (r: Result<Repository, InvalidPayload>)
    ensures r.Success? <==> RepositoryShape(node)
    ensures r.Success? ==> RepositoryFrom(r.value, node)
    ensures r.Failure? ==> r.error == Invalid
  {
    var ownerNode :- Deref(Get(node, "owner"));
    var owner :- ParseAuthor(ownerNode, false);
    var id :- Text(node, "id");
    var name :- Text(node, "name");
    var cloneUrl :- Text(node, "clone_url");
    Success(Repository(id, name, cloneUrl, owner))
  }

  /** PushParser.parse. `payload` is the tree ObjectMapper.readTree built
      from the request text, or None when the text is not JSON. A payload
      is accepted exactly when it has the shape `PushShape` describes, and
      then every field of the result is read from its member. */
  function Parse(payload: Option<Json>): (r: Result<Push, InvalidPayload>)
    ensures r.Success? <==> payload.Some? && PushShape(payload.value)
    ensures r.Success? ==> PushFrom(r.value, payload.value)
    ensures r.Failure? ==> r.error == Invalid
  {
    var root :- Deref(payload);
    var commitsNode :- Deref(Get(root, "commits"));
    var repositoryNode :- Deref(Get(root, "repository"));
    var after :- Text(root, "after");
    var before :- Text(root, "before");
    var ref :- Text(root, "ref");
    var compare :- Text(root, "compare");
    var created :- Flag(root, "created");
    var deleted :- Flag(root, "deleted");
    var forced :- Flag(root, "forced");
    var pusherNode :- Deref(Get(root, "pusher"));
    var pusherName :- Text(pusherNode, "name");
    var commits :- ParseCommitList(commitsNode);
    var headCommit :- ParseHeadCommit(root);
    var repository :- ParseRepository(repositoryNode);
    Success(Push(after, NullableTextOf(root, "base_ref"), before, commits, compare,
                 created, deleted, forced, headCommit, Pusher(pusherName),
                 NormaliseRef(ref), repository))
  }
}
