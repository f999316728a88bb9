/**
 * The flat records the pipeline stores, the raw objects the repository
 * hands out, and the two normalisers that turn the latter into the former
 * (`CommitDetails`, `RefDetails`, `extract_commit_details`,
 * `extract_ref_details` in src/main.rs).
 */
module Records {
  import opened Wrappers

  /** An object identifier. Its hexadecimal formatting is treated as opaque. */
  type Oid = string

  /** What the repository knows about one commit. */
  datatype RawCommit = RawCommit(
    id: Oid,
    authorName: Option<string>,   // absent when the name is not valid UTF-8
    time: int,                    // seconds since the epoch
    message: Option<string>,      // absent when the message is not valid UTF-8
    parentIds: seq<Oid>)

  /** The kinds a reference may have, as reported by the repository. */
  datatype ReferenceType = Direct | Symbolic

  /** What the repository knows about one reference. */
  datatype RawReference = RawReference(
    name: Option<string>,
    target: Option<Oid>,          // absent for a symbolic reference
    kind: Option<ReferenceType>)

  /** One normalised commit: the `commit_details` row plus its parent list. */
  datatype CommitDetails = CommitDetails(
    id: string,
    author: string,
    date: int,
    message: string,
    parents: seq<Oid>)

  /** One normalised reference: exactly one `ref_details` row. */
  datatype RefDetails = RefDetails(name: string, id: string, kind: string)

  const UnknownAuthor := "Unknown"
  const NoMessage := "No message"
  const UnknownTarget := "Unknown"

  /** The text stored for a reference kind. */
  function KindName(kind: Option<ReferenceType>): (s: string)
    ensures s == "Direct" <==> kind == Some(Direct)
    ensures s == "Symbolic" <==> kind == Some(Symbolic)
    ensures s == "Unknown" <==> kind == None
  {
    match kind
    case Some(Direct) => "Direct"
    case Some(Symbolic) => "Symbolic"
    case None => "Unknown"
  }

  /**
   * Normalises a commit. Identifier, date and parent order are copied;
   * a missing author becomes "Unknown" and a missing message "No message".
   * A fallback cannot be told apart from a real author named "Unknown" or a
   * real message "No message", hence the second disjunct of the equivalences.
   */
  function ExtractCommitDetails(commit: RawCommit): (d: CommitDetails)
    ensures d.id == commit.id && d.date == commit.time
    ensures d.parents == commit.parentIds
    ensures commit.authorName.Some? ==> d.author == commit.authorName.value
    ensures d.author == UnknownAuthor <==>
              (commit.authorName.None? || commit.authorName.value == UnknownAuthor)
    ensures commit.message.Some? ==> d.message == commit.message.value
    ensures d.message == NoMessage <==>
              (commit.message.None? || commit.message.value == NoMessage)
  {
    CommitDetails(
      commit.id,
      commit.authorName.UnwrapOr(UnknownAuthor),
      commit.time,
      commit.message.UnwrapOr(NoMessage),
      commit.parentIds)
  }

  /**
   * Normalises a reference. A missing name becomes "", a missing target
   * "Unknown", and the kind is spelt out as "Direct", "Symbolic" or
   * "Unknown".
   */
  function ExtractRefDetails(reference: RawReference): (d: RefDetails)
    ensures reference.name.Some? ==> d.name == reference.name.value
    ensures reference.name.None? ==> d.name == ""
    ensures reference.target.Some? ==> d.id == reference.target.value
    ensures d.id == UnknownTarget <==>
              (reference.target.None? || reference.target.value == UnknownTarget)
    ensures d.kind in {"Direct", "Symbolic", "Unknown"}
    ensures d.kind == "Direct" <==> reference.kind == Some(Direct)
    ensures d.kind == "Symbolic" <==> reference.kind == Some(Symbolic)
    ensures d.kind == "Unknown" <==> reference.kind.None?
  {
    var name := reference.name.UnwrapOr("");
    var id := match reference.target
      case Some(target) => target
      case None => UnknownTarget;
    RefDetails(name, id, KindName(reference.kind))
  }
}
