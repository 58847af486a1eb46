/**
 Credential policy and the bounded runner result: validation, authorization
 and the phase predicates the controller rests on.
 */
module CredentialPolicy {
  import opened Options

  datatype Mode = DenyAccess | Confirm | PreAuthorized | Bypass

  datatype SecretRef = SecretRef(name: string, key: string, uid: string, resourceVersion: string, isImmutable: bool)

  datatype Consumer = Consumer(name: string, operations: seq<Operation>, mode: Mode, repositories: seq<string>)

  datatype Policy = Policy(secret: SecretRef, consumers: seq<Consumer>, allowBypass: bool)

  /** The one typed operation, github.createIssue, and any other text. */
  datatype Operation = CreateIssue | Unsupported(name: string)

  predicate ValidSecretRef(ref: SecretRef) {
    ref.name != "" && ref.key != "" && ref.uid != "" && ref.resourceVersion != "" && ref.isImmutable
  }

  /** A binding names Secret, key, instance and version, and only an immutable Secret will do. */
  lemma SecretRefExactly(ref: SecretRef)
    ensures ValidSecretRef(ref) <==>
            |ref.name| > 0 && |ref.key| > 0 && |ref.uid| > 0 && |ref.resourceVersion| > 0 && ref.isImmutable
  {
  }

  predicate RepositoryChar(c: char) {
    'a' <= c <= 'z' || 'A' <= c <= 'Z' || '0' <= c <= '9' || c == '.' || c == '-' || c == '_'
  }

  predicate ValidRepositoryPart(part: string) {
    part != "" && part[0] != '.' && forall i :: 0 <= i < |part| ==> RepositoryChar(part[i])
  }

  /** The position of the first slash, or the length of the text. */
  function FirstSlash(s: string): (i: nat)
    ensures i <= |s| && '/' !in s[..i] && (i < |s| ==> s[i] == '/')
  {
    if s == [] || s[0] == '/' then 0 else
      var i := FirstSlash(s[1..]) + 1;
      assert s[..i] == [s[0]] + s[1..][..i - 1];
      i
  }

  /** owner/name: exactly two parts around one slash. */
  predicate ValidRepository(s: string) {
    var i := FirstSlash(s);
    i < |s| && ValidRepositoryPart(s[..i]) && ValidRepositoryPart(s[i + 1..])
  }

  /** A part of a repository's name: letters, digits, dots, dashes and underscores, not starting with a dot. */
  predicate PartOk(part: string) {
    && 0 < |part| && part[0] != '.'
    && forall i :: 0 <= i < |part| ==>
         'a' <= part[i] <= 'z' || 'A' <= part[i] <= 'Z' || '0' <= part[i] <= '9' || part[i] in {'.', '-', '_'}
  }

  ghost predicate OwnerAndName(s: string, owner: string, name: string) {
    s == owner + "/" + name && PartOk(owner) && PartOk(name)
  }

  /** A repository is an owner and a name around one slash. */
  lemma RepositoryExactly(s: string)
    ensures ValidRepository(s) <==> exists owner, name :: OwnerAndName(s, owner, name)
  {
    if ValidRepository(s) {
      var i := FirstSlash(s);
      PartExactly(s[..i]);
      PartExactly(s[i + 1..]);
      assert s == s[..i] + "/" + s[i + 1..];
      assert OwnerAndName(s, s[..i], s[i + 1..]);
    }
    if owner, name :| OwnerAndName(s, owner, name) {
      SlashBetween(s, owner, name);
    }
  }

  lemma PartExactly(part: string)
    ensures ValidRepositoryPart(part) <==> PartOk(part)
  {
  }

  lemma SlashBetween(s: string, owner: string, name: string)
    requires OwnerAndName(s, owner, name)
    ensures ValidRepository(s)
  {
    PartExactly(owner);
    PartExactly(name);
    assert s[|owner|] == '/' && s[..|owner|] == owner && s[|owner| + 1..] == name;
    FirstSlashIs(s, |owner|);
  }

  lemma {:induction false} FirstSlashIs(s: string, j: nat)
    requires j < |s| && s[j] == '/' && '/' !in s[..j]
    ensures FirstSlash(s) == j
  {
    if j > 0 {
      assert s[0] == s[..j][0];
      assert s[1..][..j - 1] == s[..j][1..];
      FirstSlashIs(s[1..], j - 1);
    }
  }

  /** The first consumer of that name decides; later ones of the same name are never looked at. */
  function AuthorizeConsumer(consumers: seq<Consumer>, allowBypass: bool, consumer: string, operation: Operation,
                             repository: string): Option<Mode> {
    if consumers == [] then None
    else
      var candidate := consumers[0];
      if candidate.name != consumer then AuthorizeConsumer(consumers[1..], allowBypass, consumer, operation, repository)
      else if operation !in candidate.operations || repository !in candidate.repositories then None
      else match candidate.mode
        case Confirm => Some(Confirm)
        case PreAuthorized => Some(PreAuthorized)
        case Bypass => if allowBypass then Some(Bypass) else None
        case DenyAccess => None
  }

  /** AuthorizePolicy: the access mode, or nothing. */
  function Authorize(policy: Option<Policy>, consumer: string, operation: Operation, repository: string): Option<Mode> {
    if policy.None? || !ValidSecretRef(policy.value.secret) then None
    else if operation != CreateIssue || !ValidRepository(repository) then None
    else AuthorizeConsumer(policy.value.consumers, policy.value.allowBypass, consumer, operation, repository)
  }

  /** Consumer i is the first of its name and grants the operation on the repository under `mode`. */
  predicate Grants(policy: Policy, i: nat, consumer: string, operation: Operation, repository: string, mode: Mode) {
    && i < |policy.consumers| && policy.consumers[i].name == consumer
    && (forall j :: 0 <= j < i ==> policy.consumers[j].name != consumer)
    && operation in policy.consumers[i].operations && repository in policy.consumers[i].repositories
    && policy.consumers[i].mode == mode && mode != DenyAccess && (mode == Bypass ==> policy.allowBypass)
  }

  lemma {:induction false} FirstConsumerDecides(policy: Policy, consumer: string, operation: Operation,
                                                repository: string, mode: Mode)
    ensures AuthorizeConsumer(policy.consumers, policy.allowBypass, consumer, operation, repository) == Some(mode) <==>
            exists i: nat :: Grants(policy, i, consumer, operation, repository, mode)
    decreases |policy.consumers|
  {
    if policy.consumers != [] {
      if policy.consumers[0].name == consumer {
        assert Grants(policy, 0, consumer, operation, repository, mode) <==>
               AuthorizeConsumer(policy.consumers, policy.allowBypass, consumer, operation, repository) == Some(mode);
        assert forall i: nat :: i > 0 ==> !Grants(policy, i, consumer, operation, repository, mode);
      } else {
        var rest := policy.(consumers := policy.consumers[1..]);
        FirstConsumerDecides(rest, consumer, operation, repository, mode);
        forall i: nat ensures Grants(rest, i, consumer, operation, repository, mode) <==>
          Grants(policy, i + 1, consumer, operation, repository, mode) {
          assert forall j :: 0 <= j < |rest.consumers| ==> rest.consumers[j] == policy.consumers[j + 1];
          assert forall j :: 0 < j < |policy.consumers| ==> policy.consumers[j] == rest.consumers[j - 1];
        }
        assert !Grants(policy, 0, consumer, operation, repository, mode);
        if i: nat :| Grants(policy, i, consumer, operation, repository, mode) {
          assert Grants(rest, i - 1, consumer, operation, repository, mode);
        }
        if i: nat :| Grants(rest, i, consumer, operation, repository, mode) {
          assert Grants(policy, i + 1, consumer, operation, repository, mode);
        }
      }
    }
  }

  /** Authorization fails closed: it answers a mode exactly when every condition of the policy holds. */
  lemma AuthorizeExactly(policy: Option<Policy>, consumer: string, operation: Operation, repository: string, mode: Mode)
    ensures Authorize(policy, consumer, operation, repository) == Some(mode) <==>
            && policy.Some? && ValidSecretRef(policy.value.secret) && operation == CreateIssue
               && ValidRepository(repository)
            && exists i: nat :: Grants(policy.value, i, consumer, operation, repository, mode)
  {
    if policy.Some? {
      FirstConsumerDecides(policy.value, consumer, operation, repository, mode);
    }
  }

  // ---------------------------------------------------------------- runner result

  datatype Issue = Issue(number: int, url: string, title: string)

  /** The bounded error codes, the empty code, and any other text. */
  datatype ErrorCode =
    | NoError
    | CredentialUnavailable | PolicyDenied | ApprovalDenied | SecretBindingInvalid | SpiffeUnavailable
    | NetworkAuthorityUnavailable | RunnerFailed | ResultInvalid | TicketExpired
    | Unbounded(text: string)

  predicate ValidErrorCode(code: ErrorCode) {
    code != NoError && !code.Unbounded?
  }

  predicate CompleteIssue(issue: Issue) {
    issue.number > 0 && issue.url != "" && issue.title != ""
  }

  /** A termination message after strict JSON decoding. */
  datatype Message = Malformed | Message(issue: Option<Issue>, errorCode: ErrorCode)

  /** DecodeRunnerResult accepts this message. */
  predicate BoundedOutcome(m: Message) {
    && m.Message?
    && (m.issue.None? ==> ValidErrorCode(m.errorCode))
    && (m.issue.Some? ==> m.errorCode == NoError && CompleteIssue(m.issue.value))
  }

  datatype Phase = NoPhase | Pending | PendingApproval | TicketConsumed | Running | Succeeded 
                 | Failed | Denied | UnknownOutcome

  predicate IsTerminal(phase: Phase) {
    phase == Succeeded || phase == Failed || phase == Denied || phase == UnknownOutcome
  }
}
