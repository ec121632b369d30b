/** The AST of a stream (ast/StreamNode.java and the node types it holds).
    A stream node is built once by the parser and only read afterwards, so it
    is a value here; its two loops, stringify() and getModule(String), are
    methods proved against the functions that specify them. */
module Ast {
  import opened Wrappers

  /** An argument --name=value; the offsets run from the "--" to the end of
      the value. */
  datatype ArgumentNode = ArgumentNode(name: string, value: string, startpos: int, endpos: int)

  /** A module with its name, the offsets of the name, and its arguments,
      None (Java null) when it has none. */
  datatype ModuleNode = ModuleNode(name: string, startpos: int, endpos: int, arguments: Option<seq<ArgumentNode>>)

  /** The stream text, its modules in order, and the offsets from the start of
      the first module to the end of the last. */
  datatype StreamNode = StreamNode(stream: string, moduleNodes: seq<ModuleNode>, startpos: int, endpos: int)

  /** new StreamNode(stream, moduleNodes): the offsets come from the first and
      the last module; the list must not be empty (get(0) would throw). */
  function MakeStreamNode(stream: string, moduleNodes: seq<ModuleNode>): (n: StreamNode)
    requires |moduleNodes| > 0
    ensures n.stream == stream && n.moduleNodes == moduleNodes
    ensures n.startpos == moduleNodes[0].startpos
    ensures n.endpos == moduleNodes[|moduleNodes| - 1].endpos
  {
    StreamNode(stream, moduleNodes, moduleNodes[0].startpos, moduleNodes[|moduleNodes| - 1].endpos)
  }

  // ---------------------------------------------------------------------------
  // stringify()

  /** The modules' own renderings, one after the other. ModuleNode.stringify()
      is not part of this model, so the rendering of a module is a parameter. */
  function Concat(ms: seq<ModuleNode>, render: ModuleNode -> string): string
  {
    if ms == [] then "" else Concat(ms[..|ms| - 1], render) + render(ms[|ms| - 1])
  }

  /** What stringify() returns: "Stream[" + stream + "]" and then every module. */
  function Stringified(n: StreamNode, render: ModuleNode -> string): string {
    "Stream[" + n.stream + "]" + Concat(n.moduleNodes, render)
  }

  /** stringify(): one append for the header and one per module. */
  method Stringify(n: StreamNode, render: ModuleNode -> string) returns (s: string)
    ensures s == Stringified(n, render)
  {
    s := "Stream[" + n.stream + "]";
    var i := 0;
    while i < |n.moduleNodes|
      invariant 0 <= i <= |n.moduleNodes|
      invariant s == "Stream[" + n.stream + "]" + Concat(n.moduleNodes[..i], render)
    {
      assert n.moduleNodes[..i + 1][..i] == n.moduleNodes[..i];
      s := s + render(n.moduleNodes[i]);
      i := i + 1;
    }
    assert n.moduleNodes[..i] == n.moduleNodes;
  }

  /** The modules' renderings of a concatenation are the concatenated
      renderings. */
  lemma {:induction false} ConcatAppend(a: seq<ModuleNode>, b: seq<ModuleNode>, render: ModuleNode -> string)
    ensures Concat(a + b, render) == Concat(a, render) + Concat(b, render)
    decreases |b|
  {
    if b == [] {
      assert a + b == a;
    } else {
      var b' := b[..|b| - 1];
      assert (a + b)[..|a + b| - 1] == a + b';
      assert (a + b)[|a + b| - 1] == b[|b| - 1];
      ConcatAppend(a, b', render);
    }
  }

  /** stringify() starts with the stream text in brackets and then renders
      each module in order: adding a module appends its rendering. */
  lemma StringifyAppendsModule(n: StreamNode, m: ModuleNode, render: ModuleNode -> string)
    ensures Stringified(StreamNode(n.stream, n.moduleNodes + [m], n.startpos, n.endpos), render)
      == Stringified(n, render) + render(m)
  {
    ConcatAppend(n.moduleNodes, [m], render);
    assert [m][..0] == [];
  }

  /** The rendering always begins with "Stream[", the stream text and "]". */
  lemma StringifyHeader(n: StreamNode, render: ModuleNode -> string)
    ensures var h := "Stream[" + n.stream + "]";
      |h| <= |Stringified(n, render)| && Stringified(n, render)[..|h|] == h
  {
  }

  // ---------------------------------------------------------------------------
  // getModule(String)

  /** The index of the first module with the given name, |ms| when none has it. */
  function FirstNamed(ms: seq<ModuleNode>, name: string): (i: nat)
    ensures i <= |ms|
    ensures i < |ms| ==> ms[i].name == name
    ensures forall j | 0 <= j < i :: ms[j].name != name
  {
    if ms == [] then 0
    else if ms[0].name == name then 0
    else 1 + FirstNamed(ms[1..], name)
  }

  /** getModule(name): the first module with that name, null (None) when there
      is none. */
  method GetModule(n: StreamNode, moduleName: string) returns (r: Option<ModuleNode>)
    ensures var i := FirstNamed(n.moduleNodes, moduleName);
      r == if i < |n.moduleNodes| then Some(n.moduleNodes[i]) else None
  {
    var i := 0;
    while i < |n.moduleNodes|
      invariant 0 <= i <= |n.moduleNodes|
      invariant forall j | 0 <= j < i :: n.moduleNodes[j].name != moduleName
    {
      if n.moduleNodes[i].name == moduleName {
        FirstNamedIs(n.moduleNodes, moduleName, i);
        return Some(n.moduleNodes[i]);
      }
      i := i + 1;
    }
    FirstNamedIs(n.moduleNodes, moduleName, i);
    return None;
  }

  /** FirstNamed is characterised by its two properties. */
  lemma FirstNamedIs(ms: seq<ModuleNode>, name: string, i: nat)
    requires i <= |ms|
    requires i < |ms| ==> ms[i].name == name
    requires forall j | 0 <= j < i :: ms[j].name != name
    ensures FirstNamed(ms, name) == i
  {
  }

  /** getModule finds a module exactly when one has the name, and what it
      finds has the name and comes first among those. */
  lemma GetModuleFindsFirst(ms: seq<ModuleNode>, name: string)
    ensures FirstNamed(ms, name) < |ms| <==> exists j | 0 <= j < |ms| :: ms[j].name == name
  {
    var i := FirstNamed(ms, name);
    if i == |ms| {
      assert forall j | 0 <= j < |ms| :: ms[j].name != name;
    }
  }
}
