/**
 * Inbound requests and the declarative validation of a create request: every string
 * and list field must be non-empty and both row counts at least 1. The column pairs
 * and the configuration flags carry no rule.
 */
module Requests {
  import opened Models

  /**
   * The path parameter of the fetch endpoint; the service receives its `taskId` (see the
   * `taskId` parameters of the two `GetRun` functions).
   */
  datatype GetTaskDetailsRequest = GetTaskDetailsRequest(taskId: string)

  datatype CreateReconTaskRequest = CreateReconTaskRequest(
    userId: string,
    sourceFileName: string,
    sourceFileHash: string,
    sourceFileRowCount: U64,
    sourceFileHeaders: seq<string>,
    sourceFileDelimiters: seq<string>,
    comparisonFileName: string,
    comparisonFileHash: string,
    comparisonFileHeaders: seq<string>,
    comparisonFileRowCount: U64,
    comparisonFileDelimiters: seq<string>,
    reconConfigurations: ReconciliationConfigs,
    comparisonPairs: seq<ComparisonPair>)

  /** The fields that carry a validation rule, one rule each. */
  datatype RuleField =
    | UserId | SourceFileName | SourceFileHash | SourceFileRowCount | SourceFileHeaders
    | SourceFileDelimiters | ComparisonFileName | ComparisonFileHash | ComparisonFileHeaders
    | ComparisonFileRowCount | ComparisonFileDelimiters

  /** The rules in the order the fields are declared. */
  const Rules: seq<RuleField> := [
    UserId, SourceFileName, SourceFileHash, SourceFileRowCount, SourceFileHeaders,
    SourceFileDelimiters, ComparisonFileName, ComparisonFileHash, ComparisonFileHeaders,
    ComparisonFileRowCount, ComparisonFileDelimiters]

  /** The message a failed rule reports. */
  function Message(field: RuleField): string
  {
    match field
    case UserId => "please supply a user_id"
    case SourceFileName => "please supply a source_file_name"
    case SourceFileHash => "please supply a source_file_hash"
    case SourceFileRowCount => "please supply a source_file_row_count"
    case SourceFileHeaders => "please supply the source_file_headers"
    case SourceFileDelimiters => "please supply the source_file_delimiters"
    case ComparisonFileName => "please supply a comparison_file_name"
    case ComparisonFileHash => "please supply a comparison_file_hash"
    case ComparisonFileHeaders => "please supply the comparison_file_headers"
    case ComparisonFileRowCount => "please supply a comparison_file_row_count"
    case ComparisonFileDelimiters => "please supply the comparison_file_delimiters"
  }

  /** Whether the rule on `field` is met: `length(min = 1)` or `range(min = 1)`. */
  predicate Holds(req: CreateReconTaskRequest, field: RuleField)
  {
    match field
    case UserId => |req.userId| >= 1
    case SourceFileName => |req.sourceFileName| >= 1
    case SourceFileHash => |req.sourceFileHash| >= 1
    case SourceFileRowCount => req.sourceFileRowCount >= 1
    case SourceFileHeaders => |req.sourceFileHeaders| >= 1
    case SourceFileDelimiters => |req.sourceFileDelimiters| >= 1
    case ComparisonFileName => |req.comparisonFileName| >= 1
    case ComparisonFileHash => |req.comparisonFileHash| >= 1
    case ComparisonFileHeaders => |req.comparisonFileHeaders| >= 1
    case ComparisonFileRowCount => req.comparisonFileRowCount >= 1
    case ComparisonFileDelimiters => |req.comparisonFileDelimiters| >= 1
  }

  /** A valid request, stated field by field. */
  predicate IsValid(req: CreateReconTaskRequest)
  {
    && req.userId != []
    && req.sourceFileName != [] && req.sourceFileHash != []
    && req.sourceFileRowCount >= 1
    && req.sourceFileHeaders != [] && req.sourceFileDelimiters != []
    && req.comparisonFileName != [] && req.comparisonFileHash != []
    && req.comparisonFileRowCount >= 1
    && req.comparisonFileHeaders != [] && req.comparisonFileDelimiters != []
  }

  /** The messages of the rules in `fields` that `req` fails, in order. */
  function ViolationsOf(req: CreateReconTaskRequest, fields: seq<RuleField>): (v: seq<string>)
    ensures |v| <= |fields|
  {
    if fields == [] then []
    else (if Holds(req, fields[0]) then [] else [Message(fields[0])]) + ViolationsOf(req, fields[1..])
  }

  /**
   * Every violated rule's message, in declaration order: at most one per rule, no message
   * twice, and none exactly when the request is valid.
   */
  function Violations(req: CreateReconTaskRequest): (v: seq<string>)
    ensures |v| <= |Rules|
    ensures Distinct(v)
    ensures v == [] <==> IsValid(req)
  {
    RulesAreDistinct();
    ViolationsOfNoDuplicates(req, Rules);
    ViolationsOfEmpty(req, Rules);
    assert IsValid(req) ==> forall i :: 0 <= i < |Rules| ==> Holds(req, Rules[i]);
    assert (forall i :: 0 <= i < |Rules| ==> Holds(req, Rules[i])) ==>
      && Holds(req, Rules[0]) && Holds(req, Rules[1]) && Holds(req, Rules[2]) && Holds(req, Rules[3])
      && Holds(req, Rules[4]) && Holds(req, Rules[5]) && Holds(req, Rules[6]) && Holds(req, Rules[7])
      && Holds(req, Rules[8]) && Holds(req, Rules[9]) && Holds(req, Rules[10]);
    ViolationsOf(req, Rules)
  }

  lemma {:induction false} ViolationsOfEmpty(req: CreateReconTaskRequest, fields: seq<RuleField>)
    ensures ViolationsOf(req, fields) == [] <==> forall i :: 0 <= i < |fields| ==> Holds(req, fields[i])
  {
    if fields != [] {
      ViolationsOfEmpty(req, fields[1..]);
      assert forall i :: 1 <= i < |fields| ==> fields[i] == fields[1..][i - 1];
    }
  }

  lemma {:induction false} ViolationsOfMembers(req: CreateReconTaskRequest, fields: seq<RuleField>, m: string)
    ensures m in ViolationsOf(req, fields) <==>
      exists i :: 0 <= i < |fields| && !Holds(req, fields[i]) && Message(fields[i]) == m
  {
    if fields != [] {
      ViolationsOfMembers(req, fields[1..], m);
      if m in ViolationsOf(req, fields[1..]) {
        var i :| 0 <= i < |fields[1..]| && !Holds(req, fields[1..][i]) && Message(fields[1..][i]) == m;
        assert fields[i + 1] == fields[1..][i];
      }
      if exists i :: 0 <= i < |fields| && !Holds(req, fields[i]) && Message(fields[i]) == m {
        var i :| 0 <= i < |fields| && !Holds(req, fields[i]) && Message(fields[i]) == m;
        if i > 0 {
          assert fields[1..][i - 1] == fields[i];
        }
      }
    }
  }

  /** No element occurs twice. */
  predicate Distinct<T(==)>(s: seq<T>)
  {
    forall i, j :: 0 <= i < j < |s| ==> s[i] != s[j]
  }

  /** No rule is checked twice. */
  lemma RulesAreDistinct()
    ensures Distinct(Rules)
  {
    forall i, j | 0 <= i < j < |Rules| ensures Rules[i] != Rules[j] {
      assert Rules[i].UserId? ==> i == 0;
    }
  }

  /** Prepending an element that does not occur keeps a sequence free of repeats. */
  lemma ConsDistinct<T>(x: T, s: seq<T>)
    requires x !in s && Distinct(s)
    ensures Distinct([x] + s)
  {
    var v := [x] + s;
    forall i, j | 0 <= i < j < |v| ensures v[i] != v[j] {
      assert v[j] == s[j - 1];
      if i > 0 {
        assert v[i] == s[i - 1];
      }
    }
  }

  /** The first of distinct rules is not reported again by the rules after it. */
  lemma HeadMessageNotRepeated(req: CreateReconTaskRequest, fields: seq<RuleField>)
    requires fields != [] && Distinct(fields)
    ensures Message(fields[0]) !in ViolationsOf(req, fields[1..])
  {
    var rest := fields[1..];
    ViolationsOfMembers(req, rest, Message(fields[0]));
    if Message(fields[0]) in ViolationsOf(req, rest) {
      var k :| 0 <= k < |rest| && !Holds(req, rest[k]) && Message(rest[k]) == Message(fields[0]);
      MessageInjective(rest[k], fields[0]);
      assert false;
    }
  }

  /** Checking distinct rules reports each failing rule's message once. */
  lemma {:induction false} ViolationsOfNoDuplicates(req: CreateReconTaskRequest, fields: seq<RuleField>)
    requires Distinct(fields)
    ensures Distinct(ViolationsOf(req, fields))
  {
    if fields != [] {
      var rest := fields[1..];
      forall i, j | 0 <= i < j < |rest| ensures rest[i] != rest[j] {
        assert rest[i] == fields[i + 1] && rest[j] == fields[j + 1];
      }
      ViolationsOfNoDuplicates(req, rest);
      if !Holds(req, fields[0]) {
        HeadMessageNotRepeated(req, fields);
        ConsDistinct(Message(fields[0]), ViolationsOf(req, rest));
      }
    }
  }

  /** Different rules report different messages. */
  lemma MessageInjective(f: RuleField, g: RuleField)
    requires Message(f) == Message(g)
    ensures f == g
  {
    var m := Message(f);
    // Messages are told apart by their length and the characters at 15 and 20.
    assert |Message(g)| == |m| && Message(g)[15] == m[15] && Message(g)[20] == m[20];
  }

  /** Every rule field is among the checked rules. */
  lemma RulesCoverAllFields(f: RuleField)
    ensures exists i :: 0 <= i < |Rules| && Rules[i] == f
  {
    match f
    case UserId => assert Rules[0] == f;
    case SourceFileName => assert Rules[1] == f;
    case SourceFileHash => assert Rules[2] == f;
    case SourceFileRowCount => assert Rules[3] == f;
    case SourceFileHeaders => assert Rules[4] == f;
    case SourceFileDelimiters => assert Rules[5] == f;
    case ComparisonFileName => assert Rules[6] == f;
    case ComparisonFileHash => assert Rules[7] == f;
    case ComparisonFileHeaders => assert Rules[8] == f;
    case ComparisonFileRowCount => assert Rules[9] == f;
    case ComparisonFileDelimiters => assert Rules[10] == f;
  }

  /** Each rule's message is reported exactly when that rule fails. */
  lemma ViolationReportedIffRuleFails(req: CreateReconTaskRequest, f: RuleField)
    ensures Message(f) in Violations(req) <==> !Holds(req, f)
  {
    ViolationsOfMembers(req, Rules, Message(f));
    RulesCoverAllFields(f);
    if Message(f) in Violations(req) {
      var i :| 0 <= i < |Rules| && !Holds(req, Rules[i]) && Message(Rules[i]) == Message(f);
      MessageInjective(Rules[i], f);
    }
  }

  /** The column pairs and the configuration flags play no part in validation. */
  lemma PairsAndConfigCarryNoRule(req: CreateReconTaskRequest, pairs: seq<ComparisonPair>, config: ReconciliationConfigs)
    ensures IsValid(req.(comparisonPairs := pairs, reconConfigurations := config)) == IsValid(req)
    ensures Violations(req.(comparisonPairs := pairs, reconConfigurations := config)) == Violations(req)
  {
    var other := req.(comparisonPairs := pairs, reconConfigurations := config);
    forall f ensures Holds(other, f) == Holds(req, f) { }
    assert forall fields: seq<RuleField> :: ViolationsOf(other, fields) == ViolationsOf(req, fields) by {
      forall fields: seq<RuleField> ensures ViolationsOf(other, fields) == ViolationsOf(req, fields) {
        SameRulesSameViolations(req, other, fields);
      }
    }
  }

  lemma {:induction false} SameRulesSameViolations(a: CreateReconTaskRequest, b: CreateReconTaskRequest, fields: seq<RuleField>)
    requires forall f :: Holds(a, f) == Holds(b, f)
    ensures ViolationsOf(a, fields) == ViolationsOf(b, fields)
  {
    if fields != [] {
      SameRulesSameViolations(a, b, fields[1..]);
    }
  }

  /** Emptying only the user id of a valid request makes it invalid, with exactly the user id message. */
  lemma EmptyUserIdInvalidates(req: CreateReconTaskRequest)
    requires IsValid(req)
    ensures !IsValid(req.(userId := ""))
    ensures Violations(req.(userId := "")) == ["please supply a user_id"]
  {
    var bad := req.(userId := "");
    var rest := Rules[1..];
    assert Violations(bad) == [Message(UserId)] + ViolationsOf(bad, rest);
    forall i | 0 <= i < |rest| ensures Holds(bad, rest[i]) {
      assert rest[i] != UserId;
    }
    ViolationsOfEmpty(bad, rest);
  }

  /** The lines of `lines`, separated by `sep`. */
  function Join(lines: seq<string>, sep: string): string
  {
    if lines == [] then ""
    else if |lines| == 1 then lines[0]
    else lines[0] + sep + Join(lines[1..], sep)
  }

  /** Every newline replaced by " , " (`str::replace("\n", " , ")`). */
  function ReplaceNewlines(s: string): string
  {
    if s == [] then []
    else (if s[0] == '\n' then " , " else [s[0]]) + ReplaceNewlines(s[1..])
  }

  lemma {:induction false} ReplaceNewlinesAppend(a: string, b: string)
    ensures ReplaceNewlines(a + b) == ReplaceNewlines(a) + ReplaceNewlines(b)
  {
    if a == [] {
      assert a + b == b;
    } else {
      assert (a + b)[1..] == a[1..] + b;
      ReplaceNewlinesAppend(a[1..], b);
    }
  }

  lemma {:induction false} ReplaceNewlinesKeepsLine(s: string)
    requires '\n' !in s
    ensures ReplaceNewlines(s) == s
  {
    if s != [] {
      ReplaceNewlinesKeepsLine(s[1..]);
    }
  }

  /** Lines without newlines, joined by newlines, come out joined by " , ". */
  lemma {:induction false} ReplaceNewlinesOfJoin(lines: seq<string>)
    requires forall i :: 0 <= i < |lines| ==> '\n' !in lines[i]
    ensures ReplaceNewlines(Join(lines, "\n")) == Join(lines, " , ")
  {
    if |lines| == 1 {
      ReplaceNewlinesKeepsLine(lines[0]);
    } else if |lines| > 1 {
      ReplaceNewlinesAppend(lines[0] + "\n", Join(lines[1..], "\n"));
      ReplaceNewlinesAppend(lines[0], "\n");
      ReplaceNewlinesKeepsLine(lines[0]);
      assert ReplaceNewlines("\n") == " , ";
      ReplaceNewlinesOfJoin(lines[1..]);
    }
  }

  /** The validator's report, one violated rule per line. */
  function ValidationReport(req: CreateReconTaskRequest): string
  {
    Join(Violations(req), "\n")
  }

  /**
   * The message of the `BadClientRequest` error a failed validation produces: the report with
   * its newlines replaced, which lists the violated rules' messages separated by " , ".
   */
  function ValidationErrorText(req: CreateReconTaskRequest): (text: string)
    ensures text == Join(Violations(req), " , ")
  {
    ViolationsOfAreSingleLines(req, Rules);
    ReplaceNewlinesOfJoin(Violations(req));
    ReplaceNewlines(ValidationReport(req))
  }

  // The next two lemmas split `MessageIsSingleLine` in halves, and check each message
  // character by character, only to keep each proof small for the solver.
  lemma SourceMessageIsSingleLine(f: RuleField)
    requires f.UserId? || f.SourceFileName? || f.SourceFileHash? || f.SourceFileRowCount?
          || f.SourceFileHeaders? || f.SourceFileDelimiters?
    ensures '\n' !in Message(f)
  {
    var m := Message(f);
    match f {
      case UserId => forall i | 0 <= i < |m| ensures m[i] != '\n' { }
      case SourceFileName => forall i | 0 <= i < |m| ensures m[i] != '\n' { }
      case SourceFileHash => forall i | 0 <= i < |m| ensures m[i] != '\n' { }
      case SourceFileRowCount => forall i | 0 <= i < |m| ensures m[i] != '\n' { }
      case SourceFileHeaders => forall i | 0 <= i < |m| ensures m[i] != '\n' { }
      case SourceFileDelimiters => forall i | 0 <= i < |m| ensures m[i] != '\n' { }
    }
  }

  lemma ComparisonMessageIsSingleLine(f: RuleField)
    requires f.ComparisonFileName? || f.ComparisonFileHash? || f.ComparisonFileHeaders?
          || f.ComparisonFileRowCount? || f.ComparisonFileDelimiters?
    ensures '\n' !in Message(f)
  {
    var m := Message(f);
    match f {
      case ComparisonFileName => forall i | 0 <= i < |m| ensures m[i] != '\n' { }
      case ComparisonFileHash => forall i | 0 <= i < |m| ensures m[i] != '\n' { }
      case ComparisonFileHeaders => forall i | 0 <= i < |m| ensures m[i] != '\n' { }
      case ComparisonFileRowCount => forall i | 0 <= i < |m| ensures m[i] != '\n' { }
      case ComparisonFileDelimiters =>
        assert m == "please supply the comparison_file_delimiters";
        forall i | 0 <= i < |m| ensures m[i] != '\n' { }
    }
  }

  /** No rule message spans more than one line. */
  lemma MessageIsSingleLine(f: RuleField)
    ensures '\n' !in Message(f)
  {
    if f.UserId? || f.SourceFileName? || f.SourceFileHash? || f.SourceFileRowCount?
      || f.SourceFileHeaders? || f.SourceFileDelimiters? {
      SourceMessageIsSingleLine(f);
    } else {
      ComparisonMessageIsSingleLine(f);
    }
  }

  lemma {:induction false} ViolationsOfAreSingleLines(req: CreateReconTaskRequest, fields: seq<RuleField>)
    ensures forall i :: 0 <= i < |ViolationsOf(req, fields)| ==> '\n' !in ViolationsOf(req, fields)[i]
  {
    if fields != [] {
      MessageIsSingleLine(fields[0]);
      ViolationsOfAreSingleLines(req, fields[1..]);
    }
  }
}
