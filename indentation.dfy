/**
 * The indentation rule (rule key IndentationCheck, RSPEC S1120). A full-traversal check: it walks the
 * tree of one file itself, keeping an expected column that rises by
 * `indentationLevel` on entering a class body, block, switch statement, case
 * group, multi-line argument list or lambda that starts on a new line, and falls
 * back on leaving it. Each checked statement or member whose first token is not
 * at the expected column is reported, unless it is an enum constant, at most once per
 * block segment, never twice for one line and never inside an anonymous class.
 */
module Indentation {
  import opened Wrappers
  import opened Issues
  import opened SyntaxTree

  /** The default of the `indentationLevel` rule property. */
  const DefaultIndentationLevel: int := 2

  const MessagePrefix: string := "Make this line start at column "

  /** The message of an issue for a node expected at 0-based column `expected`. */
  function IndentMessage(expected: int): string
  {
    MessagePrefix + IntToString(expected + 1) + "."
  }

  /** The 1-based column an indentation message names, read back from its text. */
  function MessageColumn(message: string): Option<int>
  {
    if |message| > |MessagePrefix| + 1 && message[..|MessagePrefix|] == MessagePrefix
       && message[|message| - 1] == '.'
    then ParseInt(message[|MessagePrefix|..|message| - 1])
    else None
  }

  /** The message for expected column `expected` names column `expected + 1`. */
  lemma MessageNamesColumn(expected: int)
    ensures MessageColumn(IndentMessage(expected)) == Some(expected + 1)
  {
    var digits := IntToString(expected + 1);
    var m := IndentMessage(expected);
    assert m == MessagePrefix + digits + ".";
    assert m[..|MessagePrefix|] == MessagePrefix;
    assert m[|MessagePrefix|..|m| - 1] == digits;
    IntToStringRoundTrip(expected + 1);
  }

  /** The issue added for `t`: on the line of its first token. */
  function IndentIssue(t: Tree, expected: int): Issue
  {
    Issue(OnLine(t.first.line), IndentMessage(expected), [])
  }

  /** A line issue, without secondaries, whose message is an indentation message. */
  ghost predicate IsIndentIssue(x: Issue)
  {
    x.location.OnLine? && x.secondaries == [] && exists c :: x.message == IndentMessage(c)
  }

  /** Every issue is an indentation issue. */
  ghost predicate IndentIssues(s: seq<Issue>)
  {
    forall i :: 0 <= i < |s| ==> IsIndentIssue(s[i])
  }

  lemma IndentIssuesAppend(s: seq<Issue>, t: Tree, expected: int)
    requires IndentIssues(s)
    ensures IndentIssues(s + [IndentIssue(t, expected)])
  {
    assert IsIndentIssue(IndentIssue(t, expected));
  }

  /** The message of every indentation issue names a column. */
  lemma IndentIssueNamesColumn(x: Issue)
    requires IsIndentIssue(x)
    ensures MessageColumn(x.message).Some?
  {
    var c :| x.message == IndentMessage(c);
    MessageNamesColumn(c);
  }

  /**
   * `t` is off its expected column and is not excused by being an enum constant
   * or by starting on the line checked last.
   */
  predicate Misplaced(t: Tree, expected: int, lastChecked: int)
  {
    t.first.column != expected && !t.kind.EnumConstant? && t.first.line != lastChecked
  }

  /** The last checked line when the i-th of `trees` is checked: every check records the last line of its node. */
  function LastCheckedBefore(trees: seq<Tree>, i: nat, initial: int): int
    requires i <= |trees|
  {
    if i == 0 then initial else trees[i - 1].lastLine
  }

  /** The first of the first `n` trees that is misplaced when checked in order. */
  function FirstMisplaced(trees: seq<Tree>, n: nat, expected: int, initial: int): (r: Option<nat>)
    requires n <= |trees|
    ensures r.Some? ==>
      r.value < n && Misplaced(trees[r.value], expected, LastCheckedBefore(trees, r.value, initial))
    ensures forall j {:trigger LastCheckedBefore(trees, j, initial)} :: 0 <= j < n && (r.None? || j < r.value) ==>
      !Misplaced(trees[j], expected, LastCheckedBefore(trees, j, initial))
  {
    if n == 0 then None
    else
      var p := FirstMisplaced(trees, n - 1, expected, initial);
      if p.Some? then p
      else if Misplaced(trees[n - 1], expected, LastCheckedBefore(trees, n - 1, initial)) then Some(n - 1)
      else None
  }

  /** The issues produced by checking the first `n` trees in order at column `expected`. */
  function IssuesUpTo(trees: seq<Tree>, n: nat, expected: int, initial: int,
                      reported: bool, anonymous: bool): seq<Issue>
    requires n <= |trees|
  {
    if reported || anonymous then []
    else match FirstMisplaced(trees, n, expected, initial)
      case None => []
      case Some(k) => [IndentIssue(trees[k], expected)]
  }

  /**
   * The issues produced by checking a list of trees: at most one, none when the
   * block was already reported or lies in an anonymous class, and otherwise one
   * for the first misplaced tree if there is one.
   */
  function ListIssues(trees: seq<Tree>, expected: int, initial: int,
                      reported: bool, anonymous: bool): (r: seq<Issue>)
    ensures |r| <= 1
    ensures reported || anonymous ==> r == []
  {
    IssuesUpTo(trees, |trees|, expected, initial, reported, anonymous)
  }

  /** A block whose first statement is misplaced yields exactly that one issue, whatever follows. */
  lemma FirstStatementMisplaced(trees: seq<Tree>, expected: int, initial: int, anonymous: bool)
    requires |trees| >= 1 && !anonymous
    requires Misplaced(trees[0], expected, initial)
    ensures ListIssues(trees, expected, initial, false, anonymous) == [IndentIssue(trees[0], expected)]
  {
    assert LastCheckedBefore(trees, 0, initial) == initial;
    var r := FirstMisplaced(trees, |trees|, expected, initial);
    assert r == Some(0);
  }

  /** No issue at all for a list of trees none of which is misplaced. */
  lemma NothingMisplaced(trees: seq<Tree>, expected: int, initial: int, reported: bool, anonymous: bool)
    requires forall j :: 0 <= j < |trees| ==> !Misplaced(trees[j], expected, LastCheckedBefore(trees, j, initial))
    ensures ListIssues(trees, expected, initial, reported, anonymous) == []
  {
  }

  /** The labels of a case group. */
  function Labels(cg: Tree): seq<Tree>
    requires cg.kind.CaseGroup? && cg.kind.labelCount <= |cg.children|
  {
    cg.children[..cg.kind.labelCount]
  }

  /** The statements of a case group. */
  function Body(cg: Tree): seq<Tree>
    requires cg.kind.CaseGroup? && cg.kind.labelCount <= |cg.children|
  {
    cg.children[cg.kind.labelCount..]
  }

  /** What the parser guarantees of a case group's labels: at least one, each a case label. */
  ghost predicate LabelsOk(labels: seq<Tree>)
  {
    |labels| >= 1 && forall i :: 0 <= i < |labels| ==> labels[i].kind.CaseLabel?
  }

  lemma CaseGroupLabelsOk(cg: Tree)
    requires ShapeOk(cg) && cg.kind.CaseGroup?
    ensures LabelsOk(Labels(cg))
  {
  }

  /** The statements start with a block. */
  predicate LeadingBlock(body: seq<Tree>)
  {
    |body| > 0 && body[0].kind.Block?
  }

  /** The column a leading block must start at: two after the colon of the last label. */
  function LeadingBlockColumn(labels: seq<Tree>): int
    requires |labels| >= 1 && labels[|labels| - 1].kind.CaseLabel?
  {
    labels[|labels| - 1].kind.colonColumn + 2
  }

  /** The last checked line once the labels are passed: the last line of the second-to-last label, if any. */
  function AfterLabels(labels: seq<Tree>, lastChecked: int): int
  {
    if |labels| >= 2 then labels[|labels| - 2].lastLine else lastChecked
  }

  /** The issue of a leading block, checked at two columns after the colon of the last label. */
  function LeadIssues(labels: seq<Tree>, body: seq<Tree>, start: int, reported: bool, anonymous: bool): seq<Issue>
    requires LabelsOk(labels)
  {
    if LeadingBlock(body) && !reported && !anonymous && Misplaced(body[0], LeadingBlockColumn(labels), start)
    then [IndentIssue(body[0], LeadingBlockColumn(labels))] else []
  }

  /**
   * The issues of checking one case group entered at `level`: a leading block is
   * checked at its colon column + 2 and the statements after it at
   * `level - step`; without a leading block all statements are checked at `level`.
   */
  function CaseGroupIssues(labels: seq<Tree>, body: seq<Tree>, level: int, step: int, lastChecked: int,
                           reported: bool, anonymous: bool): seq<Issue>
    requires LabelsOk(labels)
  {
    var start := AfterLabels(labels, lastChecked);
    var lead := LeadIssues(labels, body, start, reported, anonymous);
    lead + ListIssues(if LeadingBlock(body) then body[1..] else body,
                      if LeadingBlock(body) then level - step else level,
                      if LeadingBlock(body) then body[0].lastLine else start,
                      reported || |lead| > 0, anonymous)
  }

  /** The case group's issues, given the state after its leading block: that block's issue, then the statements' issues. */
  lemma CaseGroupIssuesAfterLead(labels: seq<Tree>, body: seq<Tree>, level: int, step: int, lastChecked: int,
                                 reported: bool, anonymous: bool,
                                 rest: seq<Tree>, restLevel: int, restStart: int, restReported: bool)
    requires LabelsOk(labels)
    requires rest == if LeadingBlock(body) then body[1..] else body
    requires restLevel == if LeadingBlock(body) then level - step else level
    requires restStart == if LeadingBlock(body) then body[0].lastLine else AfterLabels(labels, lastChecked)
    requires restReported
             == (reported || |LeadIssues(labels, body, AfterLabels(labels, lastChecked), reported, anonymous)| > 0)
    ensures CaseGroupIssues(labels, body, level, step, lastChecked, reported, anonymous)
         == LeadIssues(labels, body, AfterLabels(labels, lastChecked), reported, anonymous)
            + ListIssues(rest, restLevel, restStart, restReported, anonymous)
  {
  }

  /** A case group reports at most once, and not at all when already reported or anonymous. */
  lemma CaseGroupAtMostOneIssue(labels: seq<Tree>, body: seq<Tree>, level: int, step: int, lastChecked: int,
                                reported: bool, anonymous: bool)
    requires LabelsOk(labels)
    ensures |CaseGroupIssues(labels, body, level, step, lastChecked, reported, anonymous)| <= 1
    ensures reported || anonymous ==> CaseGroupIssues(labels, body, level, step, lastChecked, reported, anonymous) == []
  {
  }

  /** A misplaced leading block is the case group's one issue, reported against the colon column + 2. */
  lemma LeadingBlockReported(labels: seq<Tree>, body: seq<Tree>, level: int, step: int, lastChecked: int)
    requires LabelsOk(labels) && LeadingBlock(body)
    requires Misplaced(body[0], LeadingBlockColumn(labels), AfterLabels(labels, lastChecked))
    ensures CaseGroupIssues(labels, body, level, step, lastChecked, false, false)
         == [IndentIssue(body[0], LeadingBlockColumn(labels))]
  {
  }

  /** With two or more labels, a first statement on the line of the second-to-last label is not reported. */
  lemma StatementOnLabelLineExcused(labels: seq<Tree>, body: seq<Tree>, level: int, step: int, lastChecked: int)
    requires LabelsOk(labels) && |labels| >= 2 && !LeadingBlock(body)
    requires |body| >= 1 && body[0].first.line == labels[|labels| - 2].lastLine
    requires forall j :: 1 <= j < |body| ==>
      !Misplaced(body[j], level, LastCheckedBefore(body, j, AfterLabels(labels, lastChecked)))
    ensures CaseGroupIssues(labels, body, level, step, lastChecked, false, false) == []
  {
    NothingMisplaced(body, level, AfterLabels(labels, lastChecked), false, false);
  }

  /** The last checked line after a case group: its last statement's, else where the labels left it. */
  function CaseGroupLastChecked(labels: seq<Tree>, body: seq<Tree>, lastChecked: int): int
  {
    if |body| > 0 then body[|body| - 1].lastLine else AfterLabels(labels, lastChecked)
  }

  /**
   * getPreviousToken: the line of the token before the node at the bottom of
   * `path`, scanning the parent's children up to the node and moving up to the
   * parent when the node is a first child.
   */
  method GetPreviousToken(path: seq<Frame>) returns (line: Option<int>)
    ensures line == PreviousTokenLine(path)
    decreases |path|
  {
    if path == [] {
      return None;
    }
    var siblings := path[0].parent.children;
    var previous: Option<Tree> := None;
    var i := 0;
    while i < |siblings|
      invariant 0 <= i <= |siblings|
      invariant forall j :: 0 <= j < i ==> siblings[j] != path[0].self
      invariant previous == if i == 0 then None else Some(siblings[i - 1])
    {
      if siblings[i] == path[0].self {
        break;
      }
      previous := Some(siblings[i]);
      i := i + 1;
    }
    assert i == IndexOf(siblings, path[0].self);
    if previous.None? {
      line := GetPreviousToken(path[1..]);
    } else {
      line := Some(previous.value.lastLine);
    }
  }

  /** The members of a class declaration: its non-token children from the member start on. */
  function Members(t: Tree): seq<Tree>
    requires t.kind.ClassDecl? && t.kind.memberStart <= |t.children|
  {
    NonTokens(t.children[t.kind.memberStart..])
  }

  /** The per-file state of the rule, with the issues added to the file's context. */
  class IndentationCheck {
    const indentationLevel: int
    var expectedLevel: int
    var isBlockAlreadyReported: bool
    var lastCheckedLine: int
    /** Innermost enclosing class first: whether it is anonymous. */
    var isInAnonymousClass: seq<bool>
    var issues: seq<Issue>

    constructor (indentationLevel: int := DefaultIndentationLevel)
      ensures this.indentationLevel == indentationLevel
      ensures expectedLevel == 0 && !isBlockAlreadyReported && lastCheckedLine == 0
      ensures isInAnonymousClass == [] && issues == []
    {
      this.indentationLevel := indentationLevel;
      expectedLevel, isBlockAlreadyReported, lastCheckedLine := 0, false, 0;
      isInAnonymousClass, issues := [], [];
    }

    /** The innermost enclosing class is anonymous. */
    function InAnonymousClass(): bool
      reads this`isInAnonymousClass
    {
      |isInAnonymousClass| > 0 && isInAnonymousClass[0]
    }

    /** A node whose first token is on `nodeLine` is exempt from reporting. */
    function IsExcluded(node: Tree, nodeLine: int): bool
      reads this`isBlockAlreadyReported, this`lastCheckedLine, this`isInAnonymousClass
    {
      node.kind.EnumConstant? || isBlockAlreadyReported || lastCheckedLine == nodeLine || InAnonymousClass()
    }

    /**
     * The check's report condition is the list specification's: a node is reported
     * exactly when the block is not yet reported, the class is not anonymous and the
     * node is misplaced with respect to the last checked line.
     */
    lemma ReportedIffMisplaced(t: Tree, expected: int)
      ensures (t.first.column != expected && !IsExcluded(t, t.first.line))
          <==> (!isBlockAlreadyReported && !InAnonymousClass() && Misplaced(t, expected, lastCheckedLine))
    {
    }

    /**
     * scanFile: a new file starts at level 0, unreported, with no line checked and
     * an empty issue list; afterwards the level is back at 0 and the class stack is empty.
     */
    method ScanFile(root: Tree)
      requires WellFormed(root)
      modifies this
      ensures expectedLevel == 0 && isInAnonymousClass == []
      ensures IndentIssues(issues)
    {
      StartFile();
      Scan(root, []);
      isInAnonymousClass := [];
    }

    /** The start of a file: level 0, nothing reported, no line checked, and a fresh issue list. */
    method StartFile()
      modifies this`expectedLevel, this`isBlockAlreadyReported, this`lastCheckedLine, this`issues
      ensures expectedLevel == 0 && !isBlockAlreadyReported && lastCheckedLine == 0 && issues == []
      ensures IndentIssues(issues)
    {
      expectedLevel := 0;
      isBlockAlreadyReported := false;
      lastCheckedLine := 0;
      issues := [];
    }

    method NewBlock()
      modifies this`expectedLevel, this`isBlockAlreadyReported
      ensures expectedLevel == old(expectedLevel) + indentationLevel
      ensures !isBlockAlreadyReported
    {
      expectedLevel := expectedLevel + indentationLevel;
      isBlockAlreadyReported := false;
    }

    method LeaveNode(t: Tree)
      modifies this`expectedLevel, this`isBlockAlreadyReported, this`lastCheckedLine
      ensures expectedLevel == old(expectedLevel) - indentationLevel
      ensures !isBlockAlreadyReported
      ensures lastCheckedLine == t.lastLine
    {
      expectedLevel := expectedLevel - indentationLevel;
      isBlockAlreadyReported := false;
      lastCheckedLine := t.lastLine;
    }

    /** Checks one node against `expected`: an issue exactly when it is off column and not excluded. */
    method CheckIndentation(t: Tree, expected: int)
      requires IndentIssues(issues)
      modifies this`issues, this`isBlockAlreadyReported, this`lastCheckedLine
      ensures var report := t.first.column != expected && !old(IsExcluded(t, t.first.line));
        && issues == old(issues) + (if report then [IndentIssue(t, expected)] else [])
        && isBlockAlreadyReported == (old(isBlockAlreadyReported) || report)
      ensures lastCheckedLine == t.lastLine
      ensures IndentIssues(issues)
    {
      var firstSyntaxToken := t.first;
      if firstSyntaxToken.column != expected && !IsExcluded(t, firstSyntaxToken.line) {
        IndentIssuesAppend(issues, t, expected);
        issues := issues + [IndentIssue(t, expected)];
        isBlockAlreadyReported := true;
      }
      lastCheckedLine := t.lastLine;
    }

    /** Checks each of `trees` in order against the current level. */
    method CheckIndentationList(trees: seq<Tree>)
      requires IndentIssues(issues)
      modifies this`issues, this`isBlockAlreadyReported, this`lastCheckedLine
      ensures issues == old(issues) + ListIssues(trees, expectedLevel, old(lastCheckedLine),
                                                 old(isBlockAlreadyReported), InAnonymousClass())
      ensures isBlockAlreadyReported == (old(isBlockAlreadyReported) || |issues| > |old(issues)|)
      ensures lastCheckedLine == LastCheckedBefore(trees, |trees|, old(lastCheckedLine))
      ensures IndentIssues(issues)
    {
      for i := 0 to |trees|
        invariant issues == old(issues) + IssuesUpTo(trees, i, expectedLevel, old(lastCheckedLine),
                                                       old(isBlockAlreadyReported), InAnonymousClass())
        invariant isBlockAlreadyReported == (old(isBlockAlreadyReported) || |issues| > |old(issues)|)
        invariant lastCheckedLine == LastCheckedBefore(trees, i, old(lastCheckedLine))
        invariant IndentIssues(issues)
      {
        CheckIndentation(trees[i], expectedLevel);
      }
    }

    /** A block directly in a case group is indented one level less. */
    method AdjustBlockForExceptionalParents(parent: Option<Tree>)
      modifies this`expectedLevel
      ensures expectedLevel == old(expectedLevel)
        - (if parent.Some? && parent.value.kind.CaseGroup? then indentationLevel else 0)
    {
      if parent.Some? && parent.value.kind.CaseGroup? {
        expectedLevel := expectedLevel - indentationLevel;
      }
    }

    method RestoreBlockForExceptionalParents(parent: Option<Tree>)
      modifies this`expectedLevel
      ensures expectedLevel == old(expectedLevel)
        + (if parent.Some? && parent.value.kind.CaseGroup? then indentationLevel else 0)
    {
      if parent.Some? && parent.value.kind.CaseGroup? {
        expectedLevel := expectedLevel + indentationLevel;
      }
    }

    /**
     * The leading-block step of checkCaseGroup: a block first among the statements
     * is checked at two columns after the last label's colon, and the level drops
     * by one step for the statements after it.
     */
    method CheckLeadingBlock(labels: seq<Tree>, body: seq<Tree>) returns (newBody: seq<Tree>)
      requires LabelsOk(labels)
      requires IndentIssues(issues)
      modifies this`issues, this`isBlockAlreadyReported, this`lastCheckedLine, this`expectedLevel
      ensures newBody == if LeadingBlock(body) then body[1..] else body
      ensures expectedLevel == if LeadingBlock(body) then old(expectedLevel) - indentationLevel else old(expectedLevel)
      ensures issues == old(issues) + LeadIssues(labels, body, old(lastCheckedLine), old(isBlockAlreadyReported),
                                                 InAnonymousClass())
      ensures isBlockAlreadyReported == (old(isBlockAlreadyReported) || |issues| > |old(issues)|)
      ensures lastCheckedLine == if LeadingBlock(body) then body[0].lastLine else old(lastCheckedLine)
      ensures IndentIssues(issues)
    {
      newBody := body;
      var bodySize := |body|;
      if bodySize > 0 && body[0].kind.Block? {
        expectedLevel := expectedLevel - indentationLevel;
        CheckIndentation(body[0], labels[|labels| - 1].kind.colonColumn + 2);
        newBody := body[1..bodySize];
      }
    }

    /** checkCaseGroup: the labels' and statements' checks of one case group; no net change of level. */
    method CheckCaseGroup(cg: Tree)
      requires ShapeOk(cg) && cg.kind.CaseGroup?
      requires IndentIssues(issues)
      modifies this`issues, this`isBlockAlreadyReported, this`lastCheckedLine, this`expectedLevel
      ensures expectedLevel == old(expectedLevel)
      ensures LabelsOk(Labels(cg))
      ensures issues == old(issues) + CaseGroupIssues(Labels(cg), Body(cg), old(expectedLevel), indentationLevel,
                                                      old(lastCheckedLine), old(isBlockAlreadyReported),
                                                      InAnonymousClass())
      ensures isBlockAlreadyReported == (old(isBlockAlreadyReported) || |issues| > |old(issues)|)
      ensures lastCheckedLine == CaseGroupLastChecked(Labels(cg), Body(cg), old(lastCheckedLine))
      ensures IndentIssues(issues)
    {
      var labels := Labels(cg);
      CaseGroupLabelsOk(cg);
      if |labels| >= 2 {
        var previousCaseLabelTree := labels[|labels| - 2];
        lastCheckedLine := previousCaseLabelTree.lastLine;
      }
      var body := Body(cg);
      ghost var start, anonymous := issues, InAnonymousClass();
      ghost var lead := LeadIssues(labels, body, lastCheckedLine, isBlockAlreadyReported, anonymous);
      var newBody := CheckLeadingBlock(labels, body);
      ghost var rest := ListIssues(newBody, expectedLevel, lastCheckedLine, isBlockAlreadyReported, anonymous);
      CaseGroupIssuesAfterLead(labels, body, old(expectedLevel), indentationLevel, old(lastCheckedLine),
                               old(isBlockAlreadyReported), anonymous,
                               newBody, expectedLevel, lastCheckedLine, isBlockAlreadyReported);
      CheckIndentationList(newBody);
      AppendAssoc(start, lead, rest);
      var bodySize := |body|;
      if bodySize > 0 && body[0].kind.Block? {
        expectedLevel := expectedLevel + indentationLevel;
      }
    }

    /** The default traversal: children `from` to `to` of `t`, in order. */
    method ScanChildren(t: Tree, from: nat, to: nat, path: seq<Frame>)
      requires WellFormed(t) && from <= to <= |t.children|
      requires PathTo(t, path)
      requires IndentIssues(issues)
      modifies this
      ensures expectedLevel == old(expectedLevel) && isInAnonymousClass == old(isInAnonymousClass)
      ensures old(issues) <= issues && IndentIssues(issues)
      decreases t, 0
    {
      for i := from to to
        invariant expectedLevel == old(expectedLevel) && isInAnonymousClass == old(isInAnonymousClass)
        invariant old(issues) <= issues && IndentIssues(issues)
      {
        var child := t.children[i];
        Scan(child, [Frame(t, child)] + path);
      }
    }

    /**
     * `scan` of one node, `path` leading from it up to the root: dispatches to the
     * rule's visit methods or descends. Every visit leaves the level and the class
     * stack as it found them and only appends issues.
     */
    method Scan(t: Tree, path: seq<Frame>)
      requires WellFormed(t)
      requires PathTo(t, path)
      requires IndentIssues(issues)
      modifies this
      ensures expectedLevel == old(expectedLevel) && isInAnonymousClass == old(isInAnonymousClass)
      ensures old(issues) <= issues && IndentIssues(issues)
      ensures t.kind.ClassDecl? || t.kind.Block? || t.kind.SwitchStatement? ==>
        !isBlockAlreadyReported && lastCheckedLine == t.lastLine
      decreases t, 2
    {
      match t.kind
      case ClassDecl(_, _) => VisitClass(t, path);
      case Block => VisitBlock(t, path);
      case SwitchStatement(_) => VisitSwitchStatement(t, path);
      case MethodInvocation => var _ := VisitMethodInvocation(t, path);
      case LambdaExpression => var _ := VisitLambdaExpression(t, path);
      case _ => ScanChildren(t, 0, |t.children|, path);
    }

    /**
     * visitClass: a named class is checked itself at the current level and its
     * members one level deeper; an anonymous class's are not checked, and nothing
     * directly inside it is reported.
     */
    method VisitClass(t: Tree, path: seq<Frame>)
      requires WellFormed(t) && t.kind.ClassDecl?
      requires PathTo(t, path)
      requires IndentIssues(issues)
      modifies this
      ensures expectedLevel == old(expectedLevel) && isInAnonymousClass == old(isInAnonymousClass)
      ensures old(issues) <= issues && IndentIssues(issues)
      ensures !isBlockAlreadyReported && lastCheckedLine == t.lastLine
      ensures t.kind.simpleName.Some? ==>
        old(issues)
        + ListIssues([t], old(expectedLevel), old(lastCheckedLine), old(isBlockAlreadyReported), false)
        + ListIssues(Members(t), old(expectedLevel) + indentationLevel, t.lastLine, false, false)
        <= issues
      decreases t, 1
    {
      var isAnonymous := t.kind.simpleName.None?;
      isInAnonymousClass := [isAnonymous] + isInAnonymousClass;
      if !isAnonymous {
        CheckIndentationList([t]);
      }
      NewBlock();
      if !isAnonymous {
        CheckIndentationList(Members(t));
      }
      ScanChildren(t, 0, |t.children|, path);
      LeaveNode(t);
      isInAnonymousClass := isInAnonymousClass[1..];
    }

    /** The opening steps of visitBlock: a new block, lowered under a case group, and its statements checked. */
    method EnterBlock(t: Tree, parent: Option<Tree>)
      requires IndentIssues(issues)
      modifies this`issues, this`isBlockAlreadyReported, this`lastCheckedLine, this`expectedLevel
      ensures expectedLevel == old(expectedLevel)
        + (if parent.Some? && parent.value.kind.CaseGroup? then 0 else indentationLevel)
      ensures issues == old(issues) + ListIssues(NonTokens(t.children), expectedLevel, old(lastCheckedLine), false,
                                                 InAnonymousClass())
      ensures IndentIssues(issues)
    {
      NewBlock();
      AdjustBlockForExceptionalParents(parent);
      CheckIndentationList(NonTokens(t.children));
    }

    /**
     * visitBlock: the statements are checked one level deeper (one level less when
     * the block sits directly in a case group), before the issues of anything nested.
     */
    method VisitBlock(t: Tree, path: seq<Frame>)
      requires WellFormed(t) && t.kind.Block?
      requires PathTo(t, path)
      requires IndentIssues(issues)
      modifies this
      ensures expectedLevel == old(expectedLevel) && isInAnonymousClass == old(isInAnonymousClass)
      ensures old(issues) <= issues && IndentIssues(issues)
      ensures !isBlockAlreadyReported && lastCheckedLine == t.lastLine
      ensures var inCaseGroup := path != [] && path[0].parent.kind.CaseGroup?;
        old(issues)
        + ListIssues(NonTokens(t.children), old(expectedLevel) + (if inCaseGroup then 0 else indentationLevel),
                     old(lastCheckedLine), false, old(InAnonymousClass()))
        <= issues
      decreases t, 1
    {
      var parent := if path == [] then None else Some(path[0].parent);
      EnterBlock(t, parent);
      ScanChildren(t, 0, |t.children|, path);
      RestoreBlockForExceptionalParents(parent);
      LeaveNode(t);
    }

    /** visitSwitchStatement: one level for the switch, one more for each case group. */
    method VisitSwitchStatement(t: Tree, path: seq<Frame>)
      requires WellFormed(t) && t.kind.SwitchStatement?
      requires PathTo(t, path)
      requires IndentIssues(issues)
      modifies this
      ensures expectedLevel == old(expectedLevel) && isInAnonymousClass == old(isInAnonymousClass)
      ensures old(issues) <= issues && IndentIssues(issues)
      ensures !isBlockAlreadyReported && lastCheckedLine == t.lastLine
      decreases t, 1
    {
      NewBlock();
      var expression := t.children[t.kind.expression];
      Scan(expression, [Frame(t, expression)] + path);
      for i := 0 to |t.children|
        invariant expectedLevel == old(expectedLevel) + indentationLevel
        invariant isInAnonymousClass == old(isInAnonymousClass)
        invariant old(issues) <= issues && IndentIssues(issues)
      {
        var caseGroupTree := t.children[i];
        if caseGroupTree.kind.CaseGroup? {
          NewBlock();
          CheckCaseGroup(caseGroupTree);
          Scan(caseGroupTree, [Frame(t, caseGroupTree)] + path);
          LeaveNode(caseGroupTree);
        }
      }
      LeaveNode(t);
    }

    /**
     * visitMethodInvocation: the argument list is scanned at `argumentsLevel`, one
     * level deeper exactly when the call's first token and its opening parenthesis
     * are on different lines; the level is restored afterwards.
     */
    method VisitMethodInvocation(t: Tree, path: seq<Frame>) returns (ghost argumentsLevel: int)
      requires WellFormed(t) && t.kind.MethodInvocation?
      requires PathTo(t, path)
      requires IndentIssues(issues)
      modifies this
      ensures expectedLevel == old(expectedLevel) && isInAnonymousClass == old(isInAnonymousClass)
      ensures old(issues) <= issues && IndentIssues(issues)
      ensures argumentsLevel == old(expectedLevel)
        + (if t.first.line != t.children[|t.children| - 1].first.line then indentationLevel else 0)
      decreases t, 1
    {
      var n := |t.children|;
      var firstToken := t.first;
      var parenthesisLine := t.children[n - 1].first.line;
      var shouldIndentArgs := firstToken.line != parenthesisLine;
      ScanChildren(t, 0, n - 1, path);
      if shouldIndentArgs {
        expectedLevel := expectedLevel + indentationLevel;
      }
      argumentsLevel := expectedLevel;
      ScanChildren(t, n - 1, n, path);
      if shouldIndentArgs {
        expectedLevel := expectedLevel - indentationLevel;
      }
    }

    /**
     * visitLambdaExpression: the lambda is scanned at `bodyLevel`, one level deeper
     * exactly when it starts on another line than the token before it; restored afterwards.
     */
    method VisitLambdaExpression(t: Tree, path: seq<Frame>) returns (ghost bodyLevel: int)
      requires WellFormed(t) && t.kind.LambdaExpression?
      requires PathTo(t, path)
      requires IndentIssues(issues)
      modifies this
      ensures expectedLevel == old(expectedLevel) && isInAnonymousClass == old(isInAnonymousClass)
      ensures old(issues) <= issues && IndentIssues(issues)
      ensures var previous := PreviousTokenLine(path);
        bodyLevel == old(expectedLevel)
          + (if previous.Some? && previous.value != t.first.line then indentationLevel else 0)
      decreases t, 1
    {
      var previousTokenLine := GetPreviousToken(path);
      var lambdaFirstTokenLine := t.first.line;
      var newLine := previousTokenLine.Some? && previousTokenLine.value != lambdaFirstTokenLine;
      if newLine {
        expectedLevel := expectedLevel + indentationLevel;
      }
      bodyLevel := expectedLevel;
      ScanChildren(t, 0, |t.children|, path);
      if newLine {
        expectedLevel := expectedLevel - indentationLevel;
      }
    }
  }
}
