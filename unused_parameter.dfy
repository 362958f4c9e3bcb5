/**
 * The unused-method-parameter rule (rule key S1172). It is visited on method
 * and constructor declarations only. A method with a body that is not excluded
 * gets at most one issue: it sits on its first unused parameter and carries one
 * secondary location for each further unused parameter, in declaration order.
 * What the semantic model resolves (usages, annotation metadata, overriding,
 * the enclosing class's superclass, parameter types, the main-method test) is a
 * plain field of the records below.
 */
module UnusedMethodParameter {
  import opened Wrappers
  import opened Issues

  /** The tree kinds a subscription visitor can be registered for (those this rule meets). */
  datatype Kind = Method | Constructor | Class | Variable | OtherKind

  const AuthorizedAnnotation: string := "javax.enterprise.event.Observes"
  const SuppressWarningsAnnotation: string := "java.lang.SuppressWarnings"
  /** The string-literal arguments of `@SuppressWarnings` that do not count as an annotation; the value keeps its quotes. */
  const ExcludedWarningsSuppressions: seq<string> := ["\"rawtypes\"", "\"unchecked\""]
  const StrutsActionSuperclass: string := "org.apache.struts.action.Action"
  const ExcludedStrutsActionParameterTypes: seq<string> :=
    ["org.apache.struts.action.ActionMapping", "org.apache.struts.action.ActionForm",
     "javax.servlet.http.HttpServletRequest", "javax.servlet.http.HttpServletResponse"]

  /** The kinds the rule subscribes to: methods and constructors, and nothing else. */
  function NodesToVisit(): (r: seq<Kind>)
    ensures forall k :: k in r <==> k == Method || k == Constructor
    ensures |r| == 2
  {
    [Method, Constructor]
  }

  /** The method modifiers the rule looks at; all others are `OtherModifier`. */
  datatype Modifier = Private | Default | OtherModifier

  /**
   * An annotation or an annotation argument. `annotationType` is the fully
   * qualified name of the resolved annotation type; a string literal's `value`
   * is its source text, quotes included.
   */
  datatype Expr =
    | Annotation(annotationType: string, arguments: seq<Expr>)
    | StringLiteral(value: string)
    | NewArray(initializers: seq<Expr>)
    | OtherExpr

  /** A statement of a method body, as far as the rule distinguishes them. */
  datatype Statement = ThrowStatement | OtherStatement

  /** A resolved type: its fully qualified name and the names of all its supertypes. */
  datatype TypeInfo = TypeInfo(fullyQualifiedName: string, supertypes: set<string>)

  /** A formal parameter: its name and position, and what its symbol resolves to. */
  datatype Parameter = Parameter(name: string, at: Pos, usages: seq<Pos>,
                                 annotatedWith: set<string>, typeName: string)

  /**
   * A node offered to the visitor; the fields after `kind` describe a method or
   * constructor declaration and are read only for those kinds. `block` is None for a method without a
   * body; `isOverriding` is None when overriding cannot be determined;
   * `superClass` is the superclass of the enclosing class, if it has one.
   */
  datatype MethodTree = MethodTree(
    kind: Kind,
    name: string,
    modifiers: seq<Modifier>,
    annotations: seq<Expr>,
    parameters: seq<Parameter>,
    block: Option<seq<Statement>>,
    isMainMethod: bool,
    isOverriding: Option<bool>,
    superClass: Option<TypeInfo>)

  /**
   * A suppression that does not make a method "annotated": a `@SuppressWarnings`
   * whose arguments all are, a "rawtypes" or "unchecked" literal, or an array
   * initializer whose elements all are. Any other shape is not.
   */
  predicate IsExcludedLiteral(e: Expr)
    decreases e
  {
    match e
    case Annotation(annotationType, arguments) =>
      annotationType == SuppressWarningsAnnotation
      && forall i :: 0 <= i < |arguments| ==> IsExcludedLiteral(arguments[i])
    case StringLiteral(value) => value in ExcludedWarningsSuppressions
    case NewArray(initializers) => forall i :: 0 <= i < |initializers| ==> IsExcludedLiteral(initializers[i])
    case OtherExpr => false
  }

  /** The concatenation of a sequence of sequences. */
  function Flatten(ss: seq<seq<Expr>>): seq<Expr>
  {
    if ss == [] then [] else ss[0] + Flatten(ss[1..])
  }

  lemma {:induction false} InFlatten(ss: seq<seq<Expr>>, x: Expr)
    ensures x in Flatten(ss) <==> exists i :: 0 <= i < |ss| && x in ss[i]
  {
    if ss != [] {
      InFlatten(ss[1..], x);
      if x in Flatten(ss[1..]) {
        var i :| 0 <= i < |ss[1..]| && x in ss[1..][i];
        assert x in ss[i + 1];
      }
      if exists i :: 0 <= i < |ss| && x in ss[i] {
        var i :| 0 <= i < |ss| && x in ss[i];
        if i > 0 { assert x in ss[1..][i - 1]; }
      }
    }
  }

  /** The direct sub-expressions of an annotation argument. */
  function Children(e: Expr): seq<Expr>
  {
    match e
    case Annotation(_, arguments) => arguments
    case NewArray(initializers) => initializers
    case _ => []
  }

  /** The node itself followed by all its sub-expressions, in pre-order. */
  function Subterms(e: Expr): seq<Expr>
    decreases e
  {
    var cs := Children(e);
    [e] + Flatten(seq(|cs|, i requires 0 <= i < |cs| => Subterms(cs[i])))
  }

  /** The node shapes a suppression may consist of, taken one node at a time. */
  predicate AllowedNode(e: Expr)
  {
    match e
    case Annotation(annotationType, _) => annotationType == SuppressWarningsAnnotation
    case StringLiteral(value) => value in ExcludedWarningsSuppressions
    case NewArray(_) => true
    case OtherExpr => false
  }

  /**
   * The recursive test agrees with a node-by-node reading: an argument tree is an
   * excluded suppression exactly when each of its nodes is a `@SuppressWarnings`,
   * an array initializer or an excluded literal.
   */
  lemma {:induction false} ExcludedLiteralEveryNode(e: Expr)
    ensures IsExcludedLiteral(e) <==> forall x :: x in Subterms(e) ==> AllowedNode(x)
    decreases e
  {
    var cs := Children(e);
    var ss := seq(|cs|, i requires 0 <= i < |cs| => Subterms(cs[i]));
    assert Subterms(e) == [e] + Flatten(ss);
    forall i | 0 <= i < |cs| {
      ExcludedLiteralEveryNode(cs[i]);
    }
    assert IsExcludedLiteral(e) <==> AllowedNode(e) && forall i :: 0 <= i < |cs| ==> IsExcludedLiteral(cs[i]);
    if forall x :: x in Subterms(e) ==> AllowedNode(x) {
      forall i | 0 <= i < |cs| ensures IsExcludedLiteral(cs[i]) {
        forall x | x in Subterms(cs[i]) ensures AllowedNode(x) {
          assert x in ss[i];
          InFlatten(ss, x);
        }
      }
    }
    if IsExcludedLiteral(e) {
      forall x | x in Subterms(e) ensures AllowedNode(x) {
        if x != e {
          InFlatten(ss, x);
          var i :| 0 <= i < |ss| && x in ss[i];
          assert IsExcludedLiteral(cs[i]);
        }
      }
    }
  }

  /** The method counts as annotated when one of its annotations is not an excluded suppression. */
  predicate IsAnnotated(m: MethodTree)
  {
    exists i :: 0 <= i < |m.annotations| && !IsExcludedLiteral(m.annotations[i])
  }

  /** Overriding unless the semantic model says definitely not. */
  predicate IsOverriding(m: MethodTree)
  {
    m.isOverriding != Some(false)
  }

  /** The fully qualified names of the parameter types, in order. */
  function ParameterTypes(ps: seq<Parameter>): (r: seq<string>)
    ensures |r| == |ps| && forall i :: 0 <= i < |ps| ==> r[i] == ps[i].typeName
  {
    if ps == [] then [] else [ps[0].typeName] + ParameterTypes(ps[1..])
  }

  /** A method matcher: the method name and the exact list of parameter types. */
  predicate Matches(m: MethodTree, name: string, parameterTypes: seq<string>)
  {
    m.name == name && ParameterTypes(m.parameters) == parameterTypes
  }

  /** A private `writeObject(ObjectOutputStream)` or `readObject(ObjectInputStream)`. */
  predicate IsSerializableMethod(m: MethodTree)
  {
    Private in m.modifiers
    && (Matches(m, "writeObject", ["java.io.ObjectOutputStream"])
        || Matches(m, "readObject", ["java.io.ObjectInputStream"]))
  }

  /** An empty body, or a body made of one `throw` statement. */
  predicate IsEmptyOrThrowStatement(body: seq<Statement>)
  {
    |body| == 0 || (|body| == 1 && body[0].ThrowStatement?)
  }

  /** A `default` method, or a non-private method whose body is empty or only throws. */
  predicate IsDesignedForExtension(m: MethodTree)
    requires m.block.Some?
  {
    Default in m.modifiers || (Private !in m.modifiers && IsEmptyOrThrowStatement(m.block.value))
  }

  /** The methods the rule leaves alone. */
  predicate IsExcluded(m: MethodTree)
    requires m.block.Some?
  {
    m.isMainMethod || IsAnnotated(m) || IsOverriding(m) || IsSerializableMethod(m) || IsDesignedForExtension(m)
  }

  predicate IsSubtypeOf(t: TypeInfo, name: string)
  {
    t.fullyQualifiedName == name || name in t.supertypes
  }

  /** A Struts action callback parameter: the enclosing class extends `Action` and the type is one of the four. */
  predicate IsStrutsActionParameter(m: MethodTree, p: Parameter)
  {
    m.superClass.Some? && IsSubtypeOf(m.superClass.value, StrutsActionSuperclass)
    && p.typeName in ExcludedStrutsActionParameterTypes
  }

  /** No usage, no `@Observes`, and not a Struts action parameter. */
  predicate IsUnused(m: MethodTree, p: Parameter)
  {
    |p.usages| == 0 && AuthorizedAnnotation !in p.annotatedWith && !IsStrutsActionParameter(m, p)
  }

  /** The indices, in increasing order, of the unused parameters among the first `n`. */
  function UnusedIndices(m: MethodTree, n: nat): (r: seq<nat>)
    requires n <= |m.parameters|
    ensures forall i :: 0 <= i < |r| ==> r[i] < n && IsUnused(m, m.parameters[r[i]])
    ensures forall i, j :: 0 <= i < j < |r| ==> r[i] < r[j]
    ensures forall k :: 0 <= k < n && IsUnused(m, m.parameters[k]) ==> k in r
  {
    if n == 0 then []
    else UnusedIndices(m, n - 1) + (if IsUnused(m, m.parameters[n - 1]) then [n - 1] else [])
  }

  /** The unused parameters among the first `n`, in declaration order: what the first loop collects. */
  function UnusedUpTo(m: MethodTree, n: nat): seq<Parameter>
    requires n <= |m.parameters|
  {
    if n == 0 then []
    else UnusedUpTo(m, n - 1) + (if IsUnused(m, m.parameters[n - 1]) then [m.parameters[n - 1]] else [])
  }

  /** The collected parameters are exactly those at the unused indices, in order. */
  lemma {:induction false} UnusedUpToAtIndices(m: MethodTree, n: nat)
    requires n <= |m.parameters|
    ensures |UnusedUpTo(m, n)| == |UnusedIndices(m, n)|
    ensures forall i :: 0 <= i < |UnusedUpTo(m, n)| ==> UnusedUpTo(m, n)[i] == m.parameters[UnusedIndices(m, n)[i]]
  {
    if n > 0 {
      UnusedUpToAtIndices(m, n - 1);
    }
  }

  function UnusedParameters(m: MethodTree): seq<Parameter>
  {
    UnusedUpTo(m, |m.parameters|)
  }

  const MessagePrefix: string := "Remove this unused method parameter "

  /** The primary message: the parameter name between double quotes. */
  function PrimaryMessage(name: string): string
  {
    MessagePrefix + "\"" + name + "\"."
  }

  /** The secondary message, with no opening quote before the name (as the rule writes it). */
  function SecondaryMessage(name: string): string
  {
    MessagePrefix + name + "\"."
  }

  /** The primary message quotes exactly the parameter's name. */
  lemma PrimaryMessageQuotesName(name: string)
    ensures var msg := PrimaryMessage(name);
      |msg| == |MessagePrefix| + |name| + 3
      && msg[..|MessagePrefix|] == MessagePrefix
      && msg[|MessagePrefix|] == '"'
      && msg[|MessagePrefix| + 1..|msg| - 2] == name
      && msg[|msg| - 2..] == "\"."
  {
    var msg := PrimaryMessage(name);
    assert msg == MessagePrefix + ("\"" + name + "\".");
    assert msg[|MessagePrefix| + 1..|msg| - 2] == name;
  }

  /** The secondary locations built by the second loop: one per parameter, in order. */
  function Locations(us: seq<Parameter>): (r: seq<Secondary>)
    ensures |r| == |us|
    ensures forall i :: 0 <= i < |us| ==> r[i] == Secondary(SecondaryMessage(us[i].name), us[i].at)
  {
    if us == [] then [] else Locations(us[..|us| - 1]) + [Secondary(SecondaryMessage(us[|us| - 1].name), us[|us| - 1].at)]
  }

  /** The one issue for a non-empty list of unused parameters. */
  function Report(unused: seq<Parameter>): seq<Issue>
  {
    if unused == [] then []
    else [Issue(OnTree(unused[0].at), PrimaryMessage(unused[0].name), Locations(unused[1..]))]
  }

  /** The issues visitNode reports on one method or constructor. */
  function IssuesFor(m: MethodTree, hasSemantic: bool): seq<Issue>
  {
    if hasSemantic && m.block.Some? && !IsExcluded(m) then Report(UnusedParameters(m)) else []
  }

  /**
   * visitNode: collect the unused parameters in order, then the secondary locations
   * of all but the first, and report one issue on the first.
   */
  method VisitNode(m: MethodTree, hasSemantic: bool) returns (issues: seq<Issue>)
    ensures issues == IssuesFor(m, hasSemantic)
  {
    issues := [];
    if hasSemantic && m.block.Some? && !IsExcluded(m) {
      var unused: seq<Parameter> := [];
      for i := 0 to |m.parameters|
        invariant unused == UnusedUpTo(m, i)
      {
        var p := m.parameters[i];
        if |p.usages| == 0 && AuthorizedAnnotation !in p.annotatedWith && !IsStrutsActionParameter(m, p) {
          unused := unused + [p];
        }
      }
      if unused != [] {
        var locations: seq<Secondary> := [];
        var rest := unused[1..];
        for i := 0 to |rest|
          invariant locations == Locations(rest[..i])
        {
          assert rest[..i + 1][..i] == rest[..i];
          locations := locations + [Secondary(SecondaryMessage(rest[i].name), rest[i].at)];
        }
        assert rest[..|rest|] == rest;
        var firstUnused := unused[0];
        issues := [Issue(OnTree(firstUnused.at), PrimaryMessage(firstUnused.name), locations)];
      }
    }
  }

  /**
   * The issues of a file whose nodes the subscription visitor meets in order: each
   * node of a kind the rule subscribes to is handed to visitNode, the others are skipped.
   */
  function VisitedIssues(nodes: seq<MethodTree>, hasSemantic: bool): seq<Issue>
  {
    if nodes == [] then []
    else
      var last := nodes[|nodes| - 1];
      VisitedIssues(nodes[..|nodes| - 1], hasSemantic)
      + (if last.kind in NodesToVisit() then IssuesFor(last, hasSemantic) else [])
  }

  /** Meeting one more node adds its issues when it is a method or a constructor, and nothing otherwise. */
  lemma VisitedIssuesStep(nodes: seq<MethodTree>, n: MethodTree, hasSemantic: bool)
    ensures VisitedIssues(nodes + [n], hasSemantic)
         == VisitedIssues(nodes, hasSemantic)
            + (if n.kind == Method || n.kind == Constructor then IssuesFor(n, hasSemantic) else [])
  {
    assert (nodes + [n])[..|nodes|] == nodes;
  }

  /** A file without methods and constructors gets no issue, whatever its other nodes look like. */
  lemma {:induction false} OnlyMethodsAndConstructorsReported(nodes: seq<MethodTree>, hasSemantic: bool)
    requires forall i :: 0 <= i < |nodes| ==> nodes[i].kind != Method && nodes[i].kind != Constructor
    ensures VisitedIssues(nodes, hasSemantic) == []
  {
    if nodes != [] {
      OnlyMethodsAndConstructorsReported(nodes[..|nodes| - 1], hasSemantic);
    }
  }

  /** Each visited node adds at most one issue. */
  lemma {:induction false} AtMostOneIssuePerNode(nodes: seq<MethodTree>, hasSemantic: bool)
    ensures |VisitedIssues(nodes, hasSemantic)| <= |nodes|
  {
    if nodes != [] {
      AtMostOneIssuePerNode(nodes[..|nodes| - 1], hasSemantic);
      ReportedIffSomeParameterUnused(nodes[|nodes| - 1], hasSemantic);
    }
  }

  /** Some of the first `n` parameters is unused exactly when the first loop collects any. */
  lemma {:induction false} SomeUnusedCollected(m: MethodTree, n: nat)
    requires n <= |m.parameters|
    ensures UnusedUpTo(m, n) != [] <==> exists k :: 0 <= k < n && IsUnused(m, m.parameters[k])
  {
    if n > 0 {
      SomeUnusedCollected(m, n - 1);
      if IsUnused(m, m.parameters[n - 1]) {
        assert UnusedUpTo(m, n) != [];
      } else {
        assert UnusedUpTo(m, n) == UnusedUpTo(m, n - 1);
        if exists k :: 0 <= k < n && IsUnused(m, m.parameters[k]) {
          var k :| 0 <= k < n && IsUnused(m, m.parameters[k]);
          assert k < n - 1;
        }
      }
    }
  }

  /**
   * A method is reported exactly when semantics are available, it has a body, it is
   * not excluded and one of its parameters is unused; then exactly once.
   */
  lemma ReportedIffSomeParameterUnused(m: MethodTree, hasSemantic: bool)
    ensures |IssuesFor(m, hasSemantic)| <= 1
    ensures IssuesFor(m, hasSemantic) != [] <==>
      hasSemantic && m.block.Some? && !IsExcluded(m)
      && exists k :: 0 <= k < |m.parameters| && IsUnused(m, m.parameters[k])
  {
    SomeUnusedCollected(m, |m.parameters|);
  }

  /** The first unused index is the first parameter that is unused. */
  lemma FirstUnusedIndex(m: MethodTree, k: nat)
    requires k < |m.parameters| && IsUnused(m, m.parameters[k])
    requires forall j :: 0 <= j < k ==> !IsUnused(m, m.parameters[j])
    ensures |UnusedIndices(m, |m.parameters|)| >= 1 && UnusedIndices(m, |m.parameters|)[0] == k
  {
    var idx := UnusedIndices(m, |m.parameters|);
    assert k in idx;
    var p :| 0 <= p < |idx| && idx[p] == k;
    assert IsUnused(m, m.parameters[idx[0]]);
    assert idx[0] >= k;
    assert p == 0;
  }

  /**
   * The report on the collected parameters sits on the first unused parameter in
   * declaration order and names it; its secondaries are the remaining unused
   * parameters, in order.
   */
  lemma ReportOnFirstUnused(m: MethodTree, k: nat)
    requires k < |m.parameters| && IsUnused(m, m.parameters[k])
    requires forall j :: 0 <= j < k ==> !IsUnused(m, m.parameters[j])
    ensures |Report(UnusedParameters(m))| == 1
    ensures var issue := Report(UnusedParameters(m))[0];
      issue.location == OnTree(m.parameters[k].at) && issue.message == PrimaryMessage(m.parameters[k].name)
    ensures var secondaries := Report(UnusedParameters(m))[0].secondaries;
      var idx := UnusedIndices(m, |m.parameters|);
      |secondaries| == |idx| - 1
      && forall i :: 0 <= i < |secondaries| ==>
           secondaries[i] == Secondary(SecondaryMessage(m.parameters[idx[i + 1]].name), m.parameters[idx[i + 1]].at)
  {
    var idx := UnusedIndices(m, |m.parameters|);
    FirstUnusedIndex(m, k);
    UnusedUpToAtIndices(m, |m.parameters|);
    var us := UnusedParameters(m);
    assert us[0] == m.parameters[k];
    var rest := us[1..];
    assert forall i :: 0 <= i < |rest| ==> rest[i] == m.parameters[idx[i + 1]];
  }

  /** For a method that is checked, that report is the method's one issue. */
  lemma PrimaryIsFirstUnused(m: MethodTree, hasSemantic: bool, k: nat)
    requires hasSemantic && m.block.Some? && !IsExcluded(m)
    requires k < |m.parameters| && IsUnused(m, m.parameters[k])
    requires forall j :: 0 <= j < k ==> !IsUnused(m, m.parameters[j])
    ensures |IssuesFor(m, hasSemantic)| == 1
    ensures var issue := IssuesFor(m, hasSemantic)[0];
      issue.location == OnTree(m.parameters[k].at) && issue.message == PrimaryMessage(m.parameters[k].name)
    ensures var secondaries := IssuesFor(m, hasSemantic)[0].secondaries;
      var idx := UnusedIndices(m, |m.parameters|);
      |secondaries| == |idx| - 1
      && forall i :: 0 <= i < |secondaries| ==>
           secondaries[i] == Secondary(SecondaryMessage(m.parameters[idx[i + 1]].name), m.parameters[idx[i + 1]].at)
  {
    assert IssuesFor(m, hasSemantic) == Report(UnusedParameters(m));
    ReportOnFirstUnused(m, k);
  }

  /** Each exclusion on its own suppresses the issue. */
  lemma ExclusionsSuppress(m: MethodTree, hasSemantic: bool)
    requires m.block.Some?
    ensures m.isMainMethod ==> IssuesFor(m, hasSemantic) == []
    ensures IsAnnotated(m) ==> IssuesFor(m, hasSemantic) == []
    ensures m.isOverriding.None? || m.isOverriding == Some(true) ==> IssuesFor(m, hasSemantic) == []
    ensures IsSerializableMethod(m) ==> IssuesFor(m, hasSemantic) == []
    ensures Default in m.modifiers ==> IssuesFor(m, hasSemantic) == []
    ensures Private !in m.modifiers && IsEmptyOrThrowStatement(m.block.value) ==> IssuesFor(m, hasSemantic) == []
  {
  }

  /**
   * What a reported method looks like: semantics and a body, not a main method,
   * definitely not overriding, not `default`, private or with a body that does more
   * than throw, not a serialization callback, and every annotation an excluded suppression.
   */
  lemma ReportedMethodShape(m: MethodTree, hasSemantic: bool)
    requires IssuesFor(m, hasSemantic) != []
    ensures hasSemantic && m.block.Some? && !m.isMainMethod && m.isOverriding == Some(false)
    ensures Default !in m.modifiers
    ensures Private in m.modifiers || |m.block.value| >= 2 || (|m.block.value| == 1 && !m.block.value[0].ThrowStatement?)
    ensures !IsSerializableMethod(m)
    ensures forall i :: 0 <= i < |m.annotations| ==> IsExcludedLiteral(m.annotations[i])
  {
  }

  /** A method is annotated exactly when one of its annotations contains a node no suppression may contain. */
  lemma AnnotatedIffDisallowedNode(m: MethodTree)
    ensures IsAnnotated(m) <==>
      exists i, x :: 0 <= i < |m.annotations| && x in Subterms(m.annotations[i]) && !AllowedNode(x)
  {
    forall i | 0 <= i < |m.annotations| {
      ExcludedLiteralEveryNode(m.annotations[i]);
    }
  }

  /** The serialization callbacks: private, the right name, and exactly one parameter of the stream type. */
  lemma SerializationCallbacks(m: MethodTree)
    ensures (Private in m.modifiers && m.name == "writeObject" && |m.parameters| == 1
             && m.parameters[0].typeName == "java.io.ObjectOutputStream") ==> IsSerializableMethod(m)
    ensures (Private in m.modifiers && m.name == "readObject" && |m.parameters| == 1
             && m.parameters[0].typeName == "java.io.ObjectInputStream") ==> IsSerializableMethod(m)
    ensures Private !in m.modifiers ==> !IsSerializableMethod(m)
    ensures |m.parameters| != 1 ==> !IsSerializableMethod(m)
    ensures IsSerializableMethod(m) ==> m.name == "writeObject" || m.name == "readObject"
  {
    if |m.parameters| == 1 {
      assert ParameterTypes(m.parameters) == [m.parameters[0].typeName];
    }
  }

  /** A used parameter, an `@Observes` parameter and a Struts action parameter are never collected. */
  lemma ExcludedParameterNotCollected(m: MethodTree, p: Parameter)
    requires |p.usages| > 0 || AuthorizedAnnotation in p.annotatedWith || IsStrutsActionParameter(m, p)
    ensures p !in UnusedParameters(m)
  {
    var us := UnusedParameters(m);
    var idx := UnusedIndices(m, |m.parameters|);
    UnusedUpToAtIndices(m, |m.parameters|);
    assert forall i :: 0 <= i < |us| ==> us[i] == m.parameters[idx[i]] && IsUnused(m, us[i]);
    assert !IsUnused(m, p);
  }

  /** Only suppressions of "rawtypes" and "unchecked" leave a method unannotated. */
  lemma SuppressWarningsNotAnnotated(m: MethodTree)
    requires m.annotations == [Annotation(SuppressWarningsAnnotation, [StringLiteral("\"unchecked\"")]),
                               Annotation(SuppressWarningsAnnotation,
                                          [NewArray([StringLiteral("\"rawtypes\""), StringLiteral("\"unchecked\"")])])]
    ensures !IsAnnotated(m)
  {
    assert IsExcludedLiteral(m.annotations[0]);
    var arr := NewArray([StringLiteral("\"rawtypes\""), StringLiteral("\"unchecked\"")]);
    assert IsExcludedLiteral(arr.initializers[0]) && IsExcludedLiteral(arr.initializers[1]);
    assert IsExcludedLiteral(arr);
    assert IsExcludedLiteral(m.annotations[1]);
  }

  /** A suppression without arguments, or with an empty array, is vacuously excluded. */
  lemma EmptySuppressionsExcluded(m: MethodTree)
    requires m.annotations == [Annotation(SuppressWarningsAnnotation, []),
                               Annotation(SuppressWarningsAnnotation, [NewArray([])])]
    ensures !IsAnnotated(m)
  {
    assert IsExcludedLiteral(m.annotations[1].arguments[0]);
  }

  /** Any other suppression, or an argument of another shape, makes the method annotated. */
  lemma OtherSuppressionAnnotated(m: MethodTree)
    requires |m.annotations| >= 1
    requires m.annotations[0] == Annotation(SuppressWarningsAnnotation, [StringLiteral("\"all\"")])
    ensures IsAnnotated(m)
  {
    assert !IsExcludedLiteral(m.annotations[0].arguments[0]);
  }

  /** Two unused parameters a, b: one issue on a, with b as its secondary (message without the opening quote). */
  lemma TwoUnusedParameters(m: MethodTree, a: Parameter, b: Parameter)
    requires m.block == Some([OtherStatement]) && m.modifiers == [Private] && m.annotations == []
    requires !m.isMainMethod && m.isOverriding == Some(false) && m.name == "f"
    requires m.parameters == [a, b] && a.name == "a" && b.name == "b"
    requires IsUnused(m, a) && IsUnused(m, b)
    ensures IssuesFor(m, true)
         == [Issue(OnTree(a.at), "Remove this unused method parameter \"a\".",
                   [Secondary("Remove this unused method parameter b\".", b.at)])]
  {
    assert |m.name| == 1;
    assert !IsSerializableMethod(m);
    assert !IsExcluded(m);
    assert UnusedUpTo(m, 1) == [a];
    assert UnusedParameters(m) == [a, b];
    assert [a, b][1..] == [b];
    assert Locations([b]) == [Secondary(SecondaryMessage("b"), b.at)];
    ExampleMessages();
  }

  /** The messages of the example: the secondary one has no quote before the name. */
  lemma ExampleMessages()
    ensures PrimaryMessage("a") == "Remove this unused method parameter \"a\"."
    ensures SecondaryMessage("b") == "Remove this unused method parameter b\"."
  {
  }
}
