# Two Java analysis rules, modelled in Dafny

This project models two rules of the sonar-java analyser. Together with what is proved about them:

- **Indentation rule** (rule key `IndentationCheck`, RSPEC S1120). It walks the syntax tree of one file and tracks four pieces of state:
  - an expected column (`expectedLevel`);
  - a flag saying whether the current block was already reported;
  - the last line checked;
  - a stack saying whether each enclosing class is anonymous.

  It checks each named class, its members, and each statement directly inside a block or a case group; the body of an `if` or a loop without braces, and an anonymous class itself, are not checked. It reports a checked node whose first token is not at the expected column, unless the node is an enum constant. Three more exceptions stop cascades:
  - one issue per block segment;
  - nothing on a line that was just checked;
  - nothing inside an anonymous class.

  The model is a class, `Indentation.IndentationCheck`, with the rule's fields and methods. Its methods are proved against specification functions of the module. `ListIssues` gives the issues of checking a list of nodes. `CaseGroupIssues` gives those of one case group.
- **Unused method parameter rule** (rule key S1172). The rule visits methods and constructors only. A method is reported, once, exactly when semantics are available, it has a body, it is not excluded and some parameter is unused:
  - the issue sits on its first unused parameter;
  - each further unused parameter adds a secondary location, in declaration order.

  A method is excluded when it is a main method, annotated, overriding, a serialization callback, or designed for extension. The exclusions are pure predicates. The visit is a method with the rule's two loops, proved equal to the function `IssuesFor`. `VisitedIssues` hands the nodes of a file to it as the subscription does, by kind.

Files:

| file | contents |
|---|---|
| `wrappers.dfy` | `Option` |
| `issues.dfy` | positions, issues, and the decimal rendering of `int` used in messages |
| `syntax_tree.dfy` | the simplified syntax tree, and the "token before a node" specification |
| `indentation.dfy` | the indentation rule |
| `unused_parameter.dfy` | the unused-parameter rule |

What the semantic model would resolve is a plain input field:
- usages;
- annotation metadata;
- overriding, which is tri-state (`Option<bool>`);
- the superclass of the enclosing class, with its supertypes;
- parameter types;
- the main-method test;
- whether semantics are available.

The issue sink (`context.addIssue`, `reportIssue`) becomes a sequence of issues that each visit appends to.

## Model

| member | source | states |
|---|---|---|
| Issues.NatToStringDigits | java-checks/src/main/java/org/sonar/java/checks/IndentationCheck.java:211 | the decimal rendering of a natural number is a non-empty digit string with no leading zero |
| Issues.IntToStringSign | java-checks/src/main/java/org/sonar/java/checks/IndentationCheck.java:211 | the rendering of an int starts with a minus sign exactly when the int is negative |
| Issues.DigitsValueOfNatToString | java-checks/src/main/java/org/sonar/java/checks/IndentationCheck.java:211 | reading the digits of a natural number back gives that number |
| Issues.IntToStringRoundTrip | java-checks/src/main/java/org/sonar/java/checks/IndentationCheck.java:211 | `IntToString`, the rendering of the column in the message, is inverted by parsing: any int reads back as itself |
| SyntaxTree.IndexOf | java-checks/src/main/java/org/sonar/java/checks/IndentationCheck.java:158-163 | the returned index is the first occurrence of the node among the siblings, or the sibling count when the node is absent |
| SyntaxTree.NonTokens | java-checks/src/main/java/org/sonar/java/checks/IndentationCheck.java:97 | the statements of a block and the members of a class are exactly the children that are not tokens |
| SyntaxTree.NonTokensAppend | java-checks/src/main/java/org/sonar/java/checks/IndentationCheck.java:86-97 | `NonTokens` keeps the children's order: the non-tokens of two lists joined are those of the first list followed by those of the second |
| SyntaxTree.PreviousSiblingOfChild | java-checks/src/main/java/org/sonar/java/checks/IndentationCheck.java:157-167 | the sibling scan stops at child i and yields child i-1, or nothing for a first child |
| SyntaxTree.ReturnLambdaPreviousToken | java-checks/src/main/java/org/sonar/java/checks/IndentationCheck.java:156-168 | for `return () -> {` after a statement ending on the line before, the token before the lambda is the `return` keyword on the lambda's own line |
| Indentation.GetPreviousToken | java-checks/src/main/java/org/sonar/java/checks/IndentationCheck.java:156-168 | the sibling loop plus the climb to the parent give the last line of the token before the node, as `PreviousTokenLine` defines it |
| Indentation.MessageNamesColumn | java-checks/src/main/java/org/sonar/java/checks/IndentationCheck.java:211 | `IndentMessage` for expected column c reads back as column c + 1 |
| Indentation.IndentIssueNamesColumn | java-checks/src/main/java/org/sonar/java/checks/IndentationCheck.java:210-212 | every indentation issue's message names a column |
| Indentation.FirstMisplaced | java-checks/src/main/java/org/sonar/java/checks/IndentationCheck.java:202-215 | the result is the first node, in check order, that is off column, not an enum constant and not on the line checked just before it; every earlier node is none of these |
| Indentation.ListIssues | java-checks/src/main/java/org/sonar/java/checks/IndentationCheck.java:202-218 | checking a list yields at most one issue, and none when the block was already reported or the innermost class is anonymous |
| Indentation.FirstStatementMisplaced | java-checks/src/main/java/org/sonar/java/checks/IndentationCheck.java:202-215 | when the first node of a fresh block is misplaced, that node is the only issue, whatever follows it |
| Indentation.NothingMisplaced | java-checks/src/main/java/org/sonar/java/checks/IndentationCheck.java:202-215 | when no node is misplaced, checking the list adds no issue |
| Indentation.CaseGroupLabelsOk | java-checks/src/main/java/org/sonar/java/checks/IndentationCheck.java:171 | a well-formed case group has at least one label, each a case label |
| Indentation.CaseGroupAtMostOneIssue | java-checks/src/main/java/org/sonar/java/checks/IndentationCheck.java:170-188 | `CaseGroupIssues`, the checks of one case group, add at most one issue, and none when already reported or inside an anonymous class |
| Indentation.LeadingBlockReported | java-checks/src/main/java/org/sonar/java/checks/IndentationCheck.java:179-183 | a misplaced leading block is the case group's only issue, and it names the column two after the last label's colon |
| Indentation.StatementOnLabelLineExcused | java-checks/src/main/java/org/sonar/java/checks/IndentationCheck.java:172-175 | when there are two or more labels, a first statement on the line of the second-to-last label is not reported |
| Indentation.IndentationCheck.constructor | java-checks/src/main/java/org/sonar/java/checks/IndentationCheck.java:57-62 | the rule starts with the configured indentation level (`DefaultIndentationLevel`, 2, when none is given), level 0, nothing reported, line 0, an empty class stack and no issues |
| Indentation.IndentationCheck.ReportedIffMisplaced | java-checks/src/main/java/org/sonar/java/checks/IndentationCheck.java:208-219 | `IsExcluded` and the column test together report a node exactly when the block is not yet reported, the innermost class is not anonymous, and the node is off column, not an enum constant and not on the last checked line, as `Misplaced` defines it |
| Indentation.IndentationCheck.ScanFile | java-checks/src/main/java/org/sonar/java/checks/IndentationCheck.java:65-73 | after the file the level is 0 again, the class stack is empty, and all issues are indentation issues |
| Indentation.IndentationCheck.StartFile | java-checks/src/main/java/org/sonar/java/checks/IndentationCheck.java:66-70 | a file starts at level 0, unreported, at line 0, with an empty issue list |
| Indentation.IndentationCheck.NewBlock | java-checks/src/main/java/org/sonar/java/checks/IndentationCheck.java:145-148 | raises the level by one step and clears the reported flag |
| Indentation.IndentationCheck.LeaveNode | java-checks/src/main/java/org/sonar/java/checks/IndentationCheck.java:150-154 | lowers the level by one step, clears the reported flag, and records the node's last line |
| Indentation.IndentationCheck.CheckIndentation | java-checks/src/main/java/org/sonar/java/checks/IndentationCheck.java:208-215 | adds one issue, naming column expected + 1 on the node's line, exactly when the node is off column and not exempt; the flag is set exactly when it reports; the node's last line is always recorded |
| Indentation.IndentationCheck.CheckIndentationList | java-checks/src/main/java/org/sonar/java/checks/IndentationCheck.java:202-206 | the issues appended are exactly `ListIssues` of the list; the flag is set iff it was set or something was reported; the last line is that of the last node |
| Indentation.IndentationCheck.AdjustBlockForExceptionalParents | java-checks/src/main/java/org/sonar/java/checks/IndentationCheck.java:190-194 | lowers the level by one step exactly when the parent is a case group |
| Indentation.IndentationCheck.RestoreBlockForExceptionalParents | java-checks/src/main/java/org/sonar/java/checks/IndentationCheck.java:196-200 | raises the level by one step exactly when the parent is a case group, undoing the adjustment |
| Indentation.IndentationCheck.CheckLeadingBlock | java-checks/src/main/java/org/sonar/java/checks/IndentationCheck.java:176-183 | a leading block is checked at two after the last label's colon, the level drops by one step, and the rest of the statements is returned; otherwise nothing changes |
| Indentation.IndentationCheck.CheckCaseGroup | java-checks/src/main/java/org/sonar/java/checks/IndentationCheck.java:170-188 | the issues appended are exactly `CaseGroupIssues` of the labels and statements; the level has no net change; the flag and the last checked line are as the checks leave them |
| Indentation.IndentationCheck.ScanChildren | java-checks/src/main/java/org/sonar/java/checks/IndentationCheck.java:88 | scanning children restores the level and the class stack, and only appends indentation issues |
| Indentation.IndentationCheck.Scan | java-checks/src/main/java/org/sonar/java/checks/IndentationCheck.java:71 | every visit is balanced: level and class stack restored, issues only appended; class, block and switch visits leave the flag cleared and the node's last line recorded |
| Indentation.IndentationCheck.VisitClass | java-checks/src/main/java/org/sonar/java/checks/IndentationCheck.java:75-91 | a named class is checked at the current level, then its members one step deeper, before anything nested; balanced push and pop, and level restored |
| Indentation.IndentationCheck.VisitBlock | java-checks/src/main/java/org/sonar/java/checks/IndentationCheck.java:93-101 | the statements (the non-token children) are checked one step deeper, or at the same level directly in a case group, before anything nested; level restored |
| Indentation.IndentationCheck.VisitSwitchStatement | java-checks/src/main/java/org/sonar/java/checks/IndentationCheck.java:103-114 | the switch and each case group are entered and left in pairs: level and class stack restored, issues only appended |
| Indentation.IndentationCheck.VisitMethodInvocation | java-checks/src/main/java/org/sonar/java/checks/IndentationCheck.java:116-130 | the arguments are scanned one step deeper exactly when the call's first token and its opening parenthesis are on different lines; level restored |
| Indentation.IndentationCheck.VisitLambdaExpression | java-checks/src/main/java/org/sonar/java/checks/IndentationCheck.java:132-143 | the lambda is scanned one step deeper exactly when it starts on another line than the token before it; level restored |
| UnusedMethodParameter.VisitedIssuesStep | java-checks/src/main/java/org/sonar/java/checks/unused/UnusedMethodParameterCheck.java:62-65 | `VisitedIssues` hands each node whose kind is in `NodesToVisit()` (`[Method, Constructor]`, the subscribed kinds) to `IssuesFor`: a method or a constructor adds its issues, a node of any other kind adds nothing |
| UnusedMethodParameter.OnlyMethodsAndConstructorsReported | java-checks/src/main/java/org/sonar/java/checks/unused/UnusedMethodParameterCheck.java:62-65 | a file with no method and no constructor gets no issue |
| UnusedMethodParameter.AtMostOneIssuePerNode | java-checks/src/main/java/org/sonar/java/checks/unused/UnusedMethodParameterCheck.java:62-87 | the file gets at most one issue per visited node |
| UnusedMethodParameter.ExcludedLiteralEveryNode | java-checks/src/main/java/org/sonar/java/checks/unused/UnusedMethodParameterCheck.java:102-115 | `IsExcludedLiteral`: an argument tree is an excluded suppression iff every node in it is a `@SuppressWarnings`, an array initializer, or a "rawtypes"/"unchecked" literal |
| UnusedMethodParameter.AnnotatedIffDisallowedNode | java-checks/src/main/java/org/sonar/java/checks/unused/UnusedMethodParameterCheck.java:97-100 | `IsAnnotated`: a method is annotated exactly when some annotation contains a node that no excluded suppression may contain |
| UnusedMethodParameter.ParameterTypes | java-checks/src/main/java/org/sonar/java/checks/unused/UnusedMethodParameterCheck.java:55-57 | the matcher's parameter-type list has one entry per parameter, in order |
| UnusedMethodParameter.UnusedIndices | java-checks/src/main/java/org/sonar/java/checks/unused/UnusedMethodParameterCheck.java:72-77 | the indices are strictly increasing, and contain exactly the unused parameters (`IsUnused`): no usage, no `@Observes`, not a Struts action parameter |
| UnusedMethodParameter.UnusedUpToAtIndices | java-checks/src/main/java/org/sonar/java/checks/unused/UnusedMethodParameterCheck.java:71-77 | the list the first loop collects holds the parameters at those indices, in order |
| UnusedMethodParameter.ExcludedParameterNotCollected | java-checks/src/main/java/org/sonar/java/checks/unused/UnusedMethodParameterCheck.java:72-77 | a used parameter, an `@Observes` parameter or a parameter for which `IsStrutsActionParameter` holds is never collected |
| UnusedMethodParameter.SomeUnusedCollected | java-checks/src/main/java/org/sonar/java/checks/unused/UnusedMethodParameterCheck.java:72-78 | the collected list is non-empty exactly when some parameter is unused |
| UnusedMethodParameter.PrimaryMessageQuotesName | java-checks/src/main/java/org/sonar/java/checks/unused/UnusedMethodParameterCheck.java:84 | the primary message is the prefix, then the parameter name between double quotes, then a period |
| UnusedMethodParameter.Locations | java-checks/src/main/java/org/sonar/java/checks/unused/UnusedMethodParameterCheck.java:79-82 | one secondary location per remaining parameter, in order, each at that parameter with its message |
| UnusedMethodParameter.VisitNode | java-checks/src/main/java/org/sonar/java/checks/unused/UnusedMethodParameterCheck.java:67-87 | the two loops produce exactly `IssuesFor` of the method, the specification that the lemmas below are about |
| UnusedMethodParameter.ReportedIffSomeParameterUnused | java-checks/src/main/java/org/sonar/java/checks/unused/UnusedMethodParameterCheck.java:67-95 | `IssuesFor` has at most one issue, and has one iff semantics are available, the method has a body, it is not excluded (`IsExcluded`), and some parameter is unused |
| UnusedMethodParameter.FirstUnusedIndex | java-checks/src/main/java/org/sonar/java/checks/unused/UnusedMethodParameterCheck.java:72-83 | the first collected index is the first unused parameter in declaration order |
| UnusedMethodParameter.ReportOnFirstUnused | java-checks/src/main/java/org/sonar/java/checks/unused/UnusedMethodParameterCheck.java:78-85 | the report sits on the first unused parameter and names it, and its secondaries are the later unused parameters in declaration order |
| UnusedMethodParameter.PrimaryIsFirstUnused | java-checks/src/main/java/org/sonar/java/checks/unused/UnusedMethodParameterCheck.java:67-85 | for a checked method, its one issue is that report |
| UnusedMethodParameter.ExclusionsSuppress | java-checks/src/main/java/org/sonar/java/checks/unused/UnusedMethodParameterCheck.java:89-95 | each disjunct of `IsExcluded` alone suppresses the issue: main method, annotated, overriding unless definitely not (`IsOverriding`), serialization callback, `default`, non-private with an empty or throw-only body (`IsDesignedForExtension`, `IsEmptyOrThrowStatement`) |
| UnusedMethodParameter.ReportedMethodShape | java-checks/src/main/java/org/sonar/java/checks/unused/UnusedMethodParameterCheck.java:117-140 | a reported method has semantics and a body, is no main method, is definitely not overriding, is not `default`, is private or does more than throw, is no serialization callback, and carries only excluded suppressions |
| UnusedMethodParameter.SerializationCallbacks | java-checks/src/main/java/org/sonar/java/checks/unused/UnusedMethodParameterCheck.java:133-135 | `IsSerializableMethod`: a private `writeObject(ObjectOutputStream)` or `readObject(ObjectInputStream)` is one; a non-private method, a method without exactly one parameter, or one of another name is not |
| UnusedMethodParameter.SuppressWarningsNotAnnotated | java-checks/src/main/java/org/sonar/java/checks/unused/UnusedMethodParameterCheck.java:97-115 | `@SuppressWarnings("unchecked")` and `@SuppressWarnings({"rawtypes", "unchecked"})` leave a method unannotated |
| UnusedMethodParameter.EmptySuppressionsExcluded | java-checks/src/main/java/org/sonar/java/checks/unused/UnusedMethodParameterCheck.java:102-115 | a `@SuppressWarnings` with no arguments, or with an empty array, leaves a method unannotated |
| UnusedMethodParameter.OtherSuppressionAnnotated | java-checks/src/main/java/org/sonar/java/checks/unused/UnusedMethodParameterCheck.java:97-115 | `@SuppressWarnings("all")` makes the method annotated |
| UnusedMethodParameter.TwoUnusedParameters | java-checks/src/main/java/org/sonar/java/checks/unused/UnusedMethodParameterCheck.java:67-87 | a private method with two unused parameters a, b gets one issue on a, with b as its only secondary |
| UnusedMethodParameter.ExampleMessages | java-checks/src/main/java/org/sonar/java/checks/unused/UnusedMethodParameterCheck.java:81-84 | the literal texts of the primary and secondary messages |

## Left out

- The default traversal of `BaseTreeVisitor` (`super.visitX`, `scan`) is replaced by a walk over every child in order (`ScanChildren`). The real visitor's accessors and its choice of which children to visit are not part of this model.
- Keywords and punctuation are leaves of kind `Token`, so the token before a lambda is found among them. A token's own text is not modelled: a node carries only its first token's position and its last token's line.
- Nodes do not hold parent links. Each visit receives the path from its node up to the root, and its precondition `PathTo` says that each frame's node sits among its parent's children and that the frames chain up to the root.
- Nodes are compared by value where the source compares them by identity (`equals` on trees). The two agree when siblings are pairwise distinct, which `PreviousSiblingOfChild` assumes.
- `JavaTree.getLine()`, the line an indentation issue is reported on, is not part of this model. It is taken to be the line of the node's first token.
- `isInAnonymousClass.peek()` on an empty stack would throw in the source. It is read as "not anonymous"; for a well-formed file this does not happen.
- `getPreviousToken` would throw at the root of the file. There it returns nothing, and a lambda with no token before it is not indented further.
- `int` overflow of `expectedLevel` and of the column in the message is not modelled: levels are unbounded integers.
- The rule property `indentationLevel` is a constructor argument whose default value is `DefaultIndentationLevel`. It is not required to be positive, as in the source.
- `MethodMatcher` is reduced to a method name and an exact list of parameter type names.
- The superclass of the enclosing class is a field of the method record, so every parameter of one method sees the same superclass (as in the source).
- The semantic model (usages, metadata, overriding, subtyping, main-method test, `hasSemantic()`) is not modelled; its answers are inputs.
- JavaPlugin.java (plugin registration) and SquidTest.java (an end-to-end test over a build and a web service) are not part of this model.
- Indentation.IndentationCheck.VisitSwitchStatement: its contract is weaker than its behaviour. It states the balanced level, the restored class stack and that issues are only appended, but not which issues the case groups add; `CheckCaseGroup` states those.
- Indentation.IndentationCheck.VisitClass: for an anonymous class, the contract does not say that nothing directly inside it is reported. Only `ListIssues` and `ReportedIffMisplaced` state that.
- Indentation.IndentationCheck.ScanFile: it states the start of a file through `StartFile` and the end state, not the issues of the file.
- Indentation.IndentationCheck.Scan: it states balance and append-only issues, not the full list of issues of a file.
- Indentation.IndentationCheck.ScanChildren: it states balance and append-only issues, not the issues of the children.
- Indentation.IndentationCheck.VisitMethodInvocation: the deeper level is exposed only through a ghost out-parameter.
- Indentation.IndentationCheck.VisitLambdaExpression: the deeper level is exposed only through a ghost out-parameter.
- The statements after a leading block are checked at one step less than the case group's level, as the code does (`expectedLevel` is lowered before the block's check and raised only after the statements). `CaseGroupIssues` states it so.
- UnusedMethodParameter.SecondaryMessage: the secondary message lacks the opening quote before the name, as the source writes it; the model keeps that text.
