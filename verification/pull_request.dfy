/** Reading one live pull request: every reply the remote may give, and what
    `fetch_open_pull_request` makes of it. */
module PullRequests {
  import opened Json
  import opened Text

  /** One remote call: a value, a `GitHubApiError`, or any other exception. */
  datatype Api<+T> = Reply(value: T) | ApiError | Interrupt

  /** The three reads behind one fetch. */
  datatype RestReply = RestReply(repository: Api<Json>, pull: Api<Json>, files: Api<string>)

  /** A parsed pull-request reference: a number, possibly qualified by a repository. */
  datatype Reference = Unresolvable | Reference(qualifier: string, number: int)

  datatype PullRequest = PullRequest(
    repository: string, number: int, body: string, base: string, baseSha: string,
    head: string, headSha: string, changedFiles: seq<string>, state: string, draft: bool)

  datatype Fetch =
    | Fetched(pr: PullRequest)
    | NotOpen          // PullRequestStateError
    | Unusable         // GitHubApiError
    | WrongRepository  // RepositoryContextError
    | BadReference     // PullRequestReferenceError
    | Interrupted      // any other exception

  /** A reference that is just a number, as in `str(number)`. */
  function ByNumber(number: int): Reference { Reference([], number) }

  /** Characters at which `str.splitlines` ends a line. */
  predicate EndsLine(c: char) {
    var n := c as int;
    10 <= n <= 13 || 28 <= n <= 30 || n == 0x85 || n == 0x2028 || n == 0x2029
  }

  /** `line.strip() for line in output.splitlines() if line.strip()`, with `line` the
      part of the current line already read. */
  function StrippedLines(output: string, line: string): seq<string> {
    if output == [] || EndsLine(output[0]) then
      (if Strip(line) == [] then [] else [Strip(line)])
      + (if output == [] then [] else StrippedLines(output[1..], []))
    else StrippedLines(output[1..], line + [output[0]])
  }

  lemma {:induction false} StrippedLinesAreLines(output: string, line: string)
    requires Lacks(line, '\n')
    ensures LineFree(StrippedLines(output, line))
  {
    StripEnds(line);
    if output != [] {
      if EndsLine(output[0]) { StrippedLinesAreLines(output[1..], []); }
      else { StrippedLinesAreLines(output[1..], line + [output[0]]); }
    }
  }

  /** The fields `fetch_open_pull_request` insists on once the state is `open`. */
  predicate WellFormedPull(pull: Json) {
    && (Get(pull, "body").Null? || Get(pull, "body").Str?)
    && (!Has(pull, "draft") || Get(pull, "draft").Bool?)
    && NonemptyString(Get(Get(pull, "base"), "ref")) && NonemptyString(Get(Get(pull, "base"), "sha"))
    && NonemptyString(Get(Get(pull, "head"), "ref")) && NonemptyString(Get(Get(pull, "head"), "sha"))
  }

  // ---- When a fetch ends how ----

  function FullName(reply: RestReply): Json {
    if reply.repository.Reply? then Get(reply.repository.value, "full_name") else Null
  }

  /** Both the requested repository and the reference's own qualifier name the repository found. */
  predicate RightRepository(fold: string -> string, reply: RestReply, repository: string, reference: Reference) {
    && NonemptyString(FullName(reply)) && fold(FullName(reply).s) == fold(repository)
    && (reference.Reference? && reference.qualifier != [] ==> fold(reference.qualifier) == fold(FullName(reply).s))
  }

  /** The pull request is asked for. */
  predicate Resolved(fold: string -> string, reply: RestReply, repository: string, reference: Reference) {
    RightRepository(fold, reply, repository, reference) && reference.Reference?
  }

  predicate SaysOpen(pull: Json) { pull.Obj? && Get(pull, "state") == Str("open") }

  /** The changed files are asked for. */
  predicate Readable(fold: string -> string, reply: RestReply, repository: string, reference: Reference) {
    && Resolved(fold, reply, repository, reference)
    && reply.pull.Reply? && SaysOpen(reply.pull.value) && WellFormedPull(reply.pull.value)
  }

  /** A fetched pull request is the one replied, field by field. */
  predicate ReadOff(pr: PullRequest, reply: RestReply, reference: Reference)
    requires reply.pull.Reply? && reply.files.Reply? && reference.Reference?
  {
    var pull := reply.pull.value;
    && FullName(reply) == Str(pr.repository) && pr.number == reference.number && pr.state == "open"
    && (Get(pull, "body") == Str(pr.body) || (Get(pull, "body").Null? && pr.body == []))
    && Get(Get(pull, "base"), "ref") == Str(pr.base) && Get(Get(pull, "base"), "sha") == Str(pr.baseSha)
    && Get(Get(pull, "head"), "ref") == Str(pr.head) && Get(Get(pull, "head"), "sha") == Str(pr.headSha)
    && (pr.draft <==> Get(pull, "draft") == Bool(true))
    && pr.changedFiles == StrippedLines(reply.files.value, [])
  }

  /** `fold` is case folding.  The contract says which replies end the fetch how. */
  function FetchOpenPullRequest(
    fold: string -> string, reply: RestReply, repository: string, reference: Reference): (r: Fetch)
    ensures r.Fetched? <==> Readable(fold, reply, repository, reference) && reply.files.Reply?
    ensures r.Fetched? ==> ReadOff(r.pr, reply, reference) && LineFree(r.pr.changedFiles)
    ensures r.WrongRepository? <==>
      NonemptyString(FullName(reply)) && !RightRepository(fold, reply, repository, reference)
    ensures r.BadReference? <==> RightRepository(fold, reply, repository, reference) && reference.Unresolvable?
    ensures r.NotOpen? <==>
      && Resolved(fold, reply, repository, reference)
      && reply.pull.Reply? && reply.pull.value.Obj? && !SaysOpen(reply.pull.value)
    ensures r.Interrupted? <==>
      || reply.repository.Interrupt?
      || (Resolved(fold, reply, repository, reference) && reply.pull.Interrupt?)
      || (Readable(fold, reply, repository, reference) && reply.files.Interrupt?)
  {
    match reply.repository
    case Interrupt => Interrupted
    case ApiError => Unusable
    case Reply(identity) =>
      var name := Get(identity, "full_name");
      if !NonemptyString(name) then Unusable
      else if fold(name.s) != fold(repository) then WrongRepository
      else if reference.Unresolvable? then BadReference
      else if reference.qualifier != [] && fold(reference.qualifier) != fold(name.s) then WrongRepository
      else match reply.pull
        case Interrupt => Interrupted
        case ApiError => Unusable
        case Reply(pull) =>
          if !pull.Obj? then Unusable
          else if Get(pull, "state") != Str("open") then NotOpen
          else if !WellFormedPull(pull) then Unusable
          else match reply.files
            case Interrupt => Interrupted
            case ApiError => Unusable
            case Reply(output) =>
              StrippedLinesAreLines(output, []);
              Fetched(PullRequest(
                name.s, reference.number,
                if Get(pull, "body").Str? then Get(pull, "body").s else [],
                Get(Get(pull, "base"), "ref").s, Get(Get(pull, "base"), "sha").s,
                Get(Get(pull, "head"), "ref").s, Get(Get(pull, "head"), "sha").s,
                StrippedLines(output, []), "open", Get(pull, "draft") == Bool(true)))
  }
}
