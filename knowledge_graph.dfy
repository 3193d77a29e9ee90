/**
 * The knowledge-graph editor: note nodes, connections between node ids, a
 * two-click link mode, and a side sheet that edits, adds or deletes the
 * selected node. Rendering, toasts and the graph layout are not modelled.
 *
 * The side sheet is modal: while it is open the graph and the toolbar cannot
 * be clicked, and its Save and Delete buttons exist only while it is open.
 * That is what the `isSheetOpen` preconditions below say.
 */
module KnowledgeGraph {
  import opened Wrappers
  import opened Collections
  import Text

  datatype NoteData = NoteData(id: int, title: string, content: string)

  datatype Connection = Connection(source: int, target: int)

  /** The sheet's form fields. */
  datatype FormData = FormData(title: string, content: string)

  const InitialNotes: seq<NoteData> := [
    NoteData(1, "Welcome!", "<p>Click a node to edit it in the sidebar!</p>"),
    NoteData(2, "Math Formulas", "<p>You can now add math using the [fx] button: <span class=\"ql-formula\" data-value=\"e=mc^2\"></span></p>"),
    NoteData(3, "Theming", "<p>This app now supports light and dark modes!</p>")
  ]

  const InitialConnections: seq<Connection> := [Connection(1, 2), Connection(1, 3)]

  /** The content the Add Note button puts in the form. */
  const EmptyEditorContent: string := "<p><br></p>"

  /** JavaScript `!linkSource` for a `number | null`: null and 0 are both "no source yet". */
  predicate NoSource(linkSource: Option<int>) {
    linkSource.None? || linkSource.value == 0
  }

  predicate IsNodeId(nodes: seq<NoteData>, id: int) {
    exists i :: 0 <= i < |nodes| && nodes[i].id == id
  }

  /** The two connections join the same unordered pair of nodes. */
  predicate SamePair(c: Connection, d: Connection) {
    (c.source == d.source && c.target == d.target) || (c.source == d.target && c.target == d.source)
  }

  /** `connections.some(...)`: some connection already joins `a` and `b`, in either direction. */
  predicate Joined(connections: seq<Connection>, a: int, b: int) {
    exists i :: 0 <= i < |connections| && SamePair(connections[i], Connection(a, b))
  }

  /** The second click of link mode adds an edge only between two different, not yet joined nodes. */
  predicate CanLink(connections: seq<Connection>, source: int, target: int) {
    source != target && !Joined(connections, source, target)
  }

  predicate NoSelfLoops(connections: seq<Connection>) {
    forall i :: 0 <= i < |connections| ==> connections[i].source != connections[i].target
  }

  /** No two connections join the same unordered pair. */
  predicate NoParallelEdges(connections: seq<Connection>) {
    forall i, j :: 0 <= i < j < |connections| ==> !SamePair(connections[i], connections[j])
  }

  /** Referential integrity: every connection joins two existing nodes. */
  predicate EndpointsExist(nodes: seq<NoteData>, connections: seq<Connection>) {
    forall i :: 0 <= i < |connections| ==> IsNodeId(nodes, connections[i].source) && IsNodeId(nodes, connections[i].target)
  }

  predicate UniqueIds(nodes: seq<NoteData>) {
    forall i, j :: 0 <= i < j < |nodes| ==> nodes[i].id != nodes[j].id
  }

  /** The graph invariants the editor keeps. */
  predicate GraphInvariant(nodes: seq<NoteData>, connections: seq<Connection>) {
    UniqueIds(nodes) && NoSelfLoops(connections) && NoParallelEdges(connections) && EndpointsExist(nodes, connections)
  }

  /** The connections `handleDelete` keeps: those touching neither end of the deleted id. */
  function Detached(connections: seq<Connection>, id: int): seq<Connection>
  {
    Filter(connections, (c: Connection) => c.source != id && c.target != id)
  }

  /** The nodes `handleDelete` keeps. */
  function WithoutNode(nodes: seq<NoteData>, id: int): seq<NoteData>
  {
    Filter(nodes, (n: NoteData) => n.id != id)
  }

  /** Position of the first node with this id (`nodes.find(n => n.id === id)`), or -1. */
  function NodeIndex(nodes: seq<NoteData>, id: int): (k: int)
    ensures -1 <= k < |nodes|
    ensures k == -1 <==> !IsNodeId(nodes, id)
    ensures k >= 0 ==> nodes[k].id == id
    ensures forall i :: 0 <= i < k ==> nodes[i].id != id
  {
    FindIndex(nodes, (n: NoteData) => n.id == id)
  }

  /** The starting graph satisfies the invariants. */
  lemma InitialGraphValid()
    ensures GraphInvariant(InitialNotes, InitialConnections)
  {
    assert IsNodeId(InitialNotes, 1) && IsNodeId(InitialNotes, 2) && IsNodeId(InitialNotes, 3) by {
      assert InitialNotes[0].id == 1 && InitialNotes[1].id == 2 && InitialNotes[2].id == 3;
    }
  }

  /** Adding an edge that `CanLink` allows keeps both the no-self-loop and the no-duplicate-pair invariants. */
  lemma LinkKeepsSimple(connections: seq<Connection>, source: int, target: int)
    requires NoSelfLoops(connections) && NoParallelEdges(connections)
    requires CanLink(connections, source, target)
    ensures NoSelfLoops(connections + [Connection(source, target)])
    ensures NoParallelEdges(connections + [Connection(source, target)])
  {
    var c := connections + [Connection(source, target)];
    forall i, j | 0 <= i < j < |c| ensures !SamePair(c[i], c[j]) {
      if j == |connections| {
        assert !SamePair(connections[i], Connection(source, target));
      }
    }
  }

  /** A subsequence of a list without self-loops or duplicate pairs has neither. */
  lemma {:induction false} SubsequenceKeepsSimple(a: seq<Connection>, b: seq<Connection>)
    requires IsSubsequence(a, b)
    requires NoSelfLoops(b) && NoParallelEdges(b)
    ensures NoSelfLoops(a) && NoParallelEdges(a)
    decreases |b|
  {
    if a != [] {
      assert b != [];
      assert NoSelfLoops(b[1..]) && NoParallelEdges(b[1..]) by {
        forall i, j | 0 <= i < j < |b| - 1 ensures !SamePair(b[1..][i], b[1..][j]) {
          assert b[1..][i] == b[i + 1] && b[1..][j] == b[j + 1];
        }
      }
      if a[0] == b[0] {
        SubsequenceKeepsSimple(a[1..], b[1..]);
        forall j | 0 < j < |a| ensures !SamePair(a[0], a[j]) {
          assert a[j] in a[1..];
          SubsequenceMember(a[1..], b[1..], a[j]);
          var k :| 0 <= k < |b[1..]| && b[1..][k] == a[j];
          assert b[k + 1] == a[j];
        }
        assert a == [a[0]] + a[1..];
      } else {
        SubsequenceKeepsSimple(a, b[1..]);
      }
    }
  }

  /** Cascade delete: no kept connection touches the id, and every connection not touching it is kept, in order. */
  lemma DetachSpec(connections: seq<Connection>, id: int)
    ensures forall c | c in Detached(connections, id) :: c.source != id && c.target != id
    ensures forall c | c in connections && c.source != id && c.target != id :: c in Detached(connections, id)
    ensures IsSubsequence(Detached(connections, id), connections)
  {
    FilterIsSubsequence(connections, (c: Connection) => c.source != id && c.target != id);
  }

  /** Deleting a node together with its connections keeps every graph invariant, referential integrity included. */
  lemma DeleteKeepsInvariant(nodes: seq<NoteData>, connections: seq<Connection>, id: int)
    requires GraphInvariant(nodes, connections)
    ensures GraphInvariant(WithoutNode(nodes, id), Detached(connections, id))
  {
    var ns, cs := WithoutNode(nodes, id), Detached(connections, id);
    DetachSpec(connections, id);
    SubsequenceKeepsSimple(cs, connections);
    FilterIsSubsequence(nodes, (n: NoteData) => n.id != id);
    SubsequenceKeepsUnique(ns, nodes);
    forall i | 0 <= i < |cs| ensures IsNodeId(ns, cs[i].source) && IsNodeId(ns, cs[i].target) {
      var c := cs[i];
      assert c in cs;
      var k :| 0 <= k < |connections| && connections[k] == c;
      var a :| 0 <= a < |nodes| && nodes[a].id == c.source;
      var b :| 0 <= b < |nodes| && nodes[b].id == c.target;
      assert nodes[a] in ns && nodes[b] in ns;
      var a' :| 0 <= a' < |ns| && ns[a'] == nodes[a];
      var b' :| 0 <= b' < |ns| && ns[b'] == nodes[b];
    }
  }

  /** A subsequence of a list with unique ids has unique ids. */
  lemma {:induction false} SubsequenceKeepsUnique(a: seq<NoteData>, b: seq<NoteData>)
    requires IsSubsequence(a, b) && UniqueIds(b)
    ensures UniqueIds(a)
    decreases |b|
  {
    if a != [] {
      assert UniqueIds(b[1..]) by {
        forall i, j | 0 <= i < j < |b| - 1 ensures b[1..][i].id != b[1..][j].id {
          assert b[1..][i] == b[i + 1] && b[1..][j] == b[j + 1];
        }
      }
      if a[0] == b[0] {
        SubsequenceKeepsUnique(a[1..], b[1..]);
        forall j | 0 < j < |a| ensures a[0].id != a[j].id {
          assert a[j] in a[1..];
          SubsequenceMember(a[1..], b[1..], a[j]);
          var k :| 0 <= k < |b[1..]| && b[1..][k] == a[j];
          assert b[k + 1] == a[j];
        }
      } else {
        SubsequenceKeepsUnique(a, b[1..]);
      }
    }
  }

  /** Editing one node's title and content keeps every id, so the graph invariants survive. */
  lemma EditKeepsInvariant(nodes: seq<NoteData>, connections: seq<Connection>, k: nat, title: string, content: string)
    requires GraphInvariant(nodes, connections) && k < |nodes|
    ensures GraphInvariant(nodes[k := NoteData(nodes[k].id, title, content)], connections)
  {
    var ns := nodes[k := NoteData(nodes[k].id, title, content)];
    forall id | IsNodeId(nodes, id) ensures IsNodeId(ns, id) {
      var i :| 0 <= i < |nodes| && nodes[i].id == id;
      assert ns[i].id == id;
    }
  }

  /** Appending a node with an unused id keeps the graph invariants. */
  lemma AppendKeepsInvariant(nodes: seq<NoteData>, connections: seq<Connection>, node: NoteData)
    requires GraphInvariant(nodes, connections) && !IsNodeId(nodes, node.id)
    ensures GraphInvariant(nodes + [node], connections)
  {
    var ns := nodes + [node];
    forall id | IsNodeId(nodes, id) ensures IsNodeId(ns, id) {
      var i :| 0 <= i < |nodes| && nodes[i].id == id;
      assert ns[i].id == id;
    }
  }

  /** The editor's state: `nodes`, `connections`, link mode, the sheet and its form. */
  class GraphEditor {
    var nodes: seq<NoteData>
    var connections: seq<Connection>
    var isSheetOpen: bool
    var isLinking: bool
    var linkSource: Option<int>
    var currentNode: Option<NoteData>
    var form: FormData

    /** The graph invariants, a link source that names an existing node, and link mode off while the sheet is open. */
    predicate Valid()
      reads this
    {
      && GraphInvariant(nodes, connections)
      && (isLinking && !NoSource(linkSource) ==> IsNodeId(nodes, linkSource.value))
      && (isSheetOpen ==> !isLinking)
    }

    constructor ()
      ensures Valid()
      ensures nodes == InitialNotes && connections == InitialConnections
      ensures !isSheetOpen && !isLinking && linkSource == None && currentNode == None
      ensures form == FormData("", "")
    {
      nodes := InitialNotes;
      connections := InitialConnections;
      isSheetOpen := false;
      isLinking := false;
      linkSource := None;
      currentNode := None;
      form := FormData("", "");
      InitialGraphValid();
    }

    /** `handleNodeClick` on the node at position `k`. */
    method NodeClick(k: nat)
      requires Valid() && !isSheetOpen && k < |nodes|
      modifies this
      ensures Valid()
      ensures nodes == old(nodes)
      // link mode, first click: remember the source, add nothing
      ensures old(isLinking) && NoSource(old(linkSource)) ==>
        && isLinking && linkSource == Some(nodes[k].id)
        && connections == old(connections) && !isSheetOpen
        && currentNode == old(currentNode) && form == old(form)
      // link mode, second click: add the edge if allowed, then leave link mode either way
      ensures old(isLinking) && !NoSource(old(linkSource)) ==>
        && !isLinking && linkSource == None && !isSheetOpen
        && currentNode == old(currentNode) && form == old(form)
        && connections == (if CanLink(old(connections), old(linkSource).value, nodes[k].id)
                           then old(connections) + [Connection(old(linkSource).value, nodes[k].id)]
                           else old(connections))
      // otherwise: open the node in the sheet
      ensures !old(isLinking) ==>
        && connections == old(connections) && !isLinking && linkSource == old(linkSource)
        && currentNode == Some(nodes[k]) && form == FormData(nodes[k].title, nodes[k].content) && isSheetOpen
    {
      var node := nodes[k];
      assert IsNodeId(nodes, node.id);
      if isLinking {
        if NoSource(linkSource) {
          linkSource := Some(node.id);
        } else {
          var source := linkSource.value;
          if CanLink(connections, source, node.id) {
            LinkKeepsSimple(connections, source, node.id);
            connections := connections + [Connection(source, node.id)];
          }
          isLinking := false;
          linkSource := None;
        }
      } else {
        currentNode := Some(node);
        form := FormData(node.title, node.content);
        isSheetOpen := true;
      }
    }

    /** `handleAddClick`: leave link mode and open an empty sheet for a new node. */
    method AddClick()
      requires Valid() && !isSheetOpen
      modifies this
      ensures Valid()
      ensures nodes == old(nodes) && connections == old(connections) && linkSource == old(linkSource)
      ensures !isLinking && currentNode == None && form == FormData("", EmptyEditorContent) && isSheetOpen
    {
      isLinking := false;
      currentNode := None;
      form := FormData("", EmptyEditorContent);
      isSheetOpen := true;
    }

    /** Typing in the sheet's title field or editor. */
    method EditForm(title: string, content: string)
      requires Valid() && isSheetOpen
      modifies this`form
      ensures Valid() && form == FormData(title, content)
    {
      form := FormData(title, content);
    }

    /** Cancel, or the sheet closing itself: nothing but the sheet changes. */
    method CloseSheet()
      requires Valid()
      modifies this`isSheetOpen
      ensures Valid() && !isSheetOpen
    {
      isSheetOpen := false;
    }

    /**
     * `handleSave`. A blank title changes nothing. With a current node, the
     * first node with its id gets the form's title and content in place;
     * without one, a node with the fresh id is appended. The sheet closes.
     */
    method Save(freshId: int)
      requires Valid() && isSheetOpen
      requires !IsNodeId(nodes, freshId)  // `Date.now()` is later than every id handed out before
      modifies this
      ensures Valid()
      ensures connections == old(connections) && isLinking == old(isLinking) && linkSource == old(linkSource)
      ensures currentNode == old(currentNode) && form == old(form)
      ensures Text.IsBlank(form.title) ==> nodes == old(nodes) && isSheetOpen
      ensures !Text.IsBlank(form.title) ==> !isSheetOpen
      ensures !Text.IsBlank(form.title) && currentNode.Some? ==>
        var k := NodeIndex(old(nodes), currentNode.value.id);
        nodes == if k >= 0 then old(nodes)[k := NoteData(currentNode.value.id, form.title, form.content)] else old(nodes)
      ensures !Text.IsBlank(form.title) && currentNode.None? ==>
        nodes == old(nodes) + [NoteData(freshId, form.title, form.content)]
    {
      if Text.Trim(form.title) == "" {
        return;
      }
      if currentNode.Some? {
        var k := NodeIndex(nodes, currentNode.value.id);
        if k >= 0 {
          EditKeepsInvariant(nodes, connections, k, form.title, form.content);
          var node := nodes[k];
          nodes := nodes[k := NoteData(node.id, form.title, form.content)];
          forall id | IsNodeId(old(nodes), id) ensures IsNodeId(nodes, id) {
            var i :| 0 <= i < |old(nodes)| && old(nodes)[i].id == id;
            assert nodes[i].id == id;
          }
        }
      } else {
        AppendKeepsInvariant(nodes, connections, NoteData(freshId, form.title, form.content));
        nodes := nodes + [NoteData(freshId, form.title, form.content)];
        forall id | IsNodeId(old(nodes), id) ensures IsNodeId(nodes, id) {
          var i :| 0 <= i < |old(nodes)| && old(nodes)[i].id == id;
          assert nodes[i].id == id;
        }
      }
      isSheetOpen := false;
    }

    /**
     * `handleDelete`. Without a current node nothing happens. Otherwise the
     * node and every connection touching it go, and the sheet closes; the
     * current node stays selected.
     */
    method Delete()
      requires Valid() && isSheetOpen
      modifies this
      ensures Valid()
      ensures isLinking == old(isLinking) && linkSource == old(linkSource)
      ensures currentNode == old(currentNode) && form == old(form)
      ensures currentNode.None? ==> nodes == old(nodes) && connections == old(connections) && isSheetOpen
      ensures currentNode.Some? ==>
        && connections == Detached(old(connections), currentNode.value.id)
        && nodes == WithoutNode(old(nodes), currentNode.value.id)
        && !isSheetOpen
    {
      if currentNode.None? {
        return;
      }
      var id := currentNode.value.id;
      DeleteKeepsInvariant(nodes, connections, id);
      connections := Detached(connections, id);
      nodes := WithoutNode(nodes, id);
      isSheetOpen := false;
    }

    /** `toggleLinking`: forget any link source and flip link mode. */
    method ToggleLinking()
      requires Valid() && !isSheetOpen
      modifies this`isLinking, this`linkSource
      ensures Valid()
      ensures linkSource == None && isLinking == !old(isLinking)
    {
      linkSource := None;
      isLinking := !isLinking;
    }
  }
}
