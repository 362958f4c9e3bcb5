/**
 * A simplified syntax tree of the analysed language. Every node has a kind, the
 * position of its first token, the line of its last token and its ordered children
 * (as JavaTree.getChildren()), keywords and punctuation included: a token is a
 * leaf of kind `Token`. Kind-specific data sits in the kind:
 *  - a class declaration has an optional simple name (absent for an anonymous class)
 *    and the index where its members start among its children (before it: modifiers,
 *    keyword, name, type parameters, super types, the opening brace); its members are
 *    the non-token children from there on (the closing brace is a token);
 *  - a block's statements are its non-token children (the braces are tokens);
 *  - a switch statement knows the index of its expression among its children; its
 *    case groups are its children of kind `CaseGroup`;
 *  - a case group's first `labelCount` children are its labels, the rest its body;
 *  - a case label knows the column of its colon;
 *  - a method invocation's children are the method select, the type arguments and,
 *    last, the argument list, whose first token is the opening parenthesis.
 * Nodes are compared by value, where the analyser compares them by identity; the two
 * agree on trees whose siblings are pairwise distinct (they differ at least in their
 * positions in any parsed file).
 */
module SyntaxTree {
  import opened Wrappers
  import opened Issues

  datatype Kind =
    | ClassDecl(simpleName: Option<string>, memberStart: nat)
    | Block
    | SwitchStatement(expression: nat)
    | CaseGroup(labelCount: nat)
    | CaseLabel(colonColumn: int)
    | MethodInvocation
    | Arguments
    | LambdaExpression
    | EnumConstant
    | Token
    | Other

  datatype Tree = Node(kind: Kind, first: Pos, lastLine: int, children: seq<Tree>)

  /** The shape the parser's typed accessors guarantee for one node. */
  ghost predicate ShapeOk(t: Tree)
  {
    match t.kind
    case ClassDecl(_, memberStart) => memberStart <= |t.children|
    case SwitchStatement(e) => e < |t.children| && !t.children[e].kind.CaseGroup?
    case CaseGroup(n) =>
      1 <= n <= |t.children| && (forall i :: 0 <= i < n ==> t.children[i].kind.CaseLabel?)
      && forall i :: n <= i < |t.children| ==> !t.children[i].kind.Token?
    case Token => t.children == [] && t.lastLine == t.first.line
    case MethodInvocation =>
      |t.children| >= 2 && t.children[|t.children| - 1].kind.Arguments?
    case _ => true
  }

  /** Every node of the tree has the shape its kind promises. */
  ghost predicate WellFormed(t: Tree)
  {
    ShapeOk(t) && forall i :: 0 <= i < |t.children| ==> WellFormed(t.children[i])
  }

  /** The children that are not tokens, in order: the statements of a block, the members of a class. */
  function NonTokens(s: seq<Tree>): (r: seq<Tree>)
    ensures |r| <= |s|
    ensures forall x :: x in r <==> x in s && !x.kind.Token?
  {
    if s == [] then [] else (if s[0].kind.Token? then [] else [s[0]]) + NonTokens(s[1..])
  }

  /** Filtering the tokens out keeps the order: the non-tokens of a concatenation are those of each part, in turn. */
  lemma {:induction false} NonTokensAppend(a: seq<Tree>, b: seq<Tree>)
    ensures NonTokens(a + b) == NonTokens(a) + NonTokens(b)
  {
    if a != [] {
      assert (a + b)[1..] == a[1..] + b;
      NonTokensAppend(a[1..], b);
    } else {
      assert a + b == b;
    }
  }

  /** One step of the way from a node up to the root: the node and its parent. */
  datatype Frame = Frame(parent: Tree, self: Tree)

  /**
   * `path` leads from `t` up to the root: its first frame is `t` under its parent,
   * and each further frame is the previous frame's parent under its own parent.
   */
  ghost predicate PathTo(t: Tree, path: seq<Frame>)
    decreases |path|
  {
    path == [] || (path[0].self == t && t in path[0].parent.children && PathTo(path[0].parent, path[1..]))
  }

  /** The index of the first occurrence of `t` in `s` (|s| when absent). */
  function IndexOf(s: seq<Tree>, t: Tree): (k: nat)
    ensures k <= |s|
    ensures k < |s| ==> s[k] == t
    ensures forall j :: 0 <= j < k ==> s[j] != t
  {
    if s == [] then 0 else if s[0] == t then 0 else 1 + IndexOf(s[1..], t)
  }

  /** The sibling just before `t`; when `t` is absent this is the last sibling, as the source's scan leaves it. */
  function PreviousSibling(siblings: seq<Tree>, t: Tree): Option<Tree>
  {
    var k := IndexOf(siblings, t);
    if k == 0 then None else Some(siblings[k - 1])
  }

  /**
   * The line of the token just before the node at the bottom of `path`: the last
   * token of its previous sibling or, for a first child, the token before its parent.
   * None when the walk reaches the root.
   */
  function PreviousTokenLine(path: seq<Frame>): Option<int>
    decreases |path|
  {
    if path == [] then None
    else match PreviousSibling(path[0].parent.children, path[0].self)
      case Some(p) => Some(p.lastLine)
      case None => PreviousTokenLine(path[1..])
  }

  /** In a tree without repeated siblings, the previous sibling of child `i` is child `i - 1`. */
  lemma PreviousSiblingOfChild(parent: Tree, i: nat)
    requires i < |parent.children|
    requires forall j :: 0 <= j < i ==> parent.children[j] != parent.children[i]
    ensures PreviousSibling(parent.children, parent.children[i])
         == if i == 0 then None else Some(parent.children[i - 1])
  {
    var k := IndexOf(parent.children, parent.children[i]);
    assert k == i;
  }

  /**
   * `int a = 0;` on line 2, then `return () -> {` on line 3 and the lambda's body up
   * to `};` on line 5: the token before the lambda is the `return` keyword, on the
   * lambda's own line, not the end of the previous statement.
   */
  lemma ReturnLambdaPreviousToken()
    ensures var decl := Node(Other, Pos(2, 4), 2, [Node(Token, Pos(2, 4), 2, [])]);
      var lambda := Node(LambdaExpression, Pos(3, 11), 5, []);
      var ret := Node(Other, Pos(3, 4), 5, [Node(Token, Pos(3, 4), 3, []), lambda, Node(Token, Pos(5, 5), 5, [])]);
      var block := Node(Block, Pos(1, 2), 6, [Node(Token, Pos(1, 2), 1, []), decl, ret, Node(Token, Pos(6, 2), 6, [])]);
      PreviousTokenLine([Frame(ret, lambda), Frame(block, ret)]) == Some(3)
  {
    var lambda := Node(LambdaExpression, Pos(3, 11), 5, []);
    var keyword := Node(Token, Pos(3, 4), 3, []);
    var ret := Node(Other, Pos(3, 4), 5, [keyword, lambda, Node(Token, Pos(5, 5), 5, [])]);
    assert keyword != lambda;
    PreviousSiblingOfChild(ret, 1);
  }
}
