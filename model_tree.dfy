/** One side (local or remote) of the tree that compares two JSON versions
    of a model: the label and background of each node, the tree's content,
    and the selection that each side mirrors to its counterpart. */
module ModelTreeView {
  import opened Common
  import Colors

  /** A Gson element. */
  datatype Json = JNull | JArray(items: seq<Json>) | JObject(fields: map<string, Json>) | JPrimitive(text: string)

  /** What a Java call does: return a value or throw. */
  datatype Outcome<T> = Returns(value: T) | Throws

  /** The colour of nodes whose two sides differ. */
  const Highlight := Colors.RGB(255, 255, 128)

  /** A node of the compared JSON trees; element is what JsonNode.getElement
      gives (JsonNode is not part of this model). */
  class JsonNode {
    const key: string
    const localElement: Option<Json>
    const remoteElement: Option<Json>
    const element: Option<Json>
    const parent: JsonNode?
    var children: seq<JsonNode>

    constructor (key: string, localElement: Option<Json>, remoteElement: Option<Json>,
                 element: Option<Json>, parent: JsonNode?)
      ensures this.key == key && this.localElement == localElement
      ensures this.remoteElement == remoteElement && this.element == element
      ensures this.parent == parent && children == []
    {
      this.key := key;
      this.localElement := localElement;
      this.remoteElement := remoteElement;
      this.element := element;
      this.parent := parent;
      children := [];
    }
  }

  /** What a viewer hands to its providers: a node or any other object. */
  datatype Item = Node(node: JsonNode) | Other

  /** A viewer's input: an array of items or anything else. */
  datatype Input = ArrayInput(items: seq<Item>) | OtherInput

  /** The element of the node on the side a tree shows. */
  function Side(node: JsonNode, local: bool): Option<Json> {
    if local then node.localElement else node.remoteElement
  }

  /** JsonElement.getAsString: a primitive's text, the single element of a
      one-element array; every other element throws. */
  function AsString(e: Json): Outcome<string> {
    match e
    case JPrimitive(t) => Returns(t)
    case JArray(items) => if |items| == 1 then AsString(items[0]) else Throws
    case _ => Throws
  }

  /** The name shown for a reference object; a missing name throws. */
  function ReferenceName(fields: map<string, Json>): Outcome<string> {
    if "name" in fields then AsString(fields["name"]) else Throws
  }

  /** isEmptyArrayElement: the node has no element on this side and its
      parent's element is an array; a missing parent throws. */
  function IsEmptyArrayElement(node: JsonNode?, local: bool): (r: Outcome<bool>)
    ensures node != null && Side(node, local).Some? ==> r == Returns(false)
  {
    if node == null then Throws
    else if Side(node, local).Some? then Returns(false)
    else if node.parent == null then Throws
    else if node.parent.element.Some? then Returns(node.parent.element.value.JArray?)
    else Returns(false)
  }

  /** getText: the label of an item; Returns(None) is Java's null label. */
  function GetText(item: Item, local: bool, isReference: map<string, Json> -> bool): (r: Outcome<Option<string>>)
    ensures item.Other? ==> r == Returns(None)
  {
    if item.Other? then Returns(None)
    else
      var node := item.node;
      match Side(node, local)
      case None =>
        (match IsEmptyArrayElement(node, local)
         case Throws => Throws
         case Returns(true) => Returns(None)
         case Returns(false) =>
           (match IsEmptyArrayElement(node.parent, local)
            case Throws => Throws
            case Returns(true) => Returns(None)
            case Returns(false) => Returns(Some(node.key + ": null"))))
      case Some(JNull) => Returns(Some(node.key + ": null"))
      case Some(JArray(items)) => Returns(Some(if |items| == 0 then node.key + ": null" else node.key))
      case Some(JObject(fields)) =>
        if !isReference(fields) then Returns(Some(node.key))
        else
          (match ReferenceName(fields)
           case Throws => Throws
           case Returns(name) => Returns(Some(node.key + ": " + name)))
      case Some(JPrimitive(t)) => Returns(Some(node.key + ": " + t))
  }

  /** Every label a node gets begins with the node's key. */
  lemma LabelStartsWithKey(node: JsonNode, local: bool, isReference: map<string, Json> -> bool, s: string)
    requires GetText(Node(node), local, isReference) == Returns(Some(s))
    ensures node.key <= s
  {
    var k := node.key;
    assert k <= k + ": null" && k <= k;
    match Side(node, local)
    case None =>
    case Some(JNull) =>
    case Some(JArray(_)) =>
    case Some(JObject(fields)) =>
      if isReference(fields) {
        assert k <= k + ": " + ReferenceName(fields).value;
      }
    case Some(JPrimitive(t)) =>
      assert k <= k + ": " + t;
  }

  /** The node's element (either side) is an array. */
  predicate HoldsArray(n: JsonNode) {
    n.element.Some? && n.element.value.JArray?
  }

  /** A node without a value on this side has no label when it is a gap in
      an array, or the child of such a gap; a root without a value makes
      getText throw, as does a gap-free parent without a value that is the
      root; every other such node reads "key: null". */
  lemma MissingValueLabel(node: JsonNode, local: bool, isReference: map<string, Json> -> bool)
    requires Side(node, local).None?
    ensures node.parent == null ==> GetText(Node(node), local, isReference).Throws?
    ensures node.parent != null ==>
      var p := node.parent;
      var t := GetText(Node(node), local, isReference);
      && (t == Returns(None) <==>
            HoldsArray(p) || (Side(p, local).None? && p.parent != null && HoldsArray(p.parent)))
      && (t.Throws? <==> !HoldsArray(p) && Side(p, local).None? && p.parent == null)
      && (t.Returns? && t.value.Some? ==> t.value.value == node.key + ": null")
  {
  }

  /** Which values show "key: null": a JSON null and an empty array; a
      present value otherwise never gets a null label and only a reference
      without a readable name throws. */
  lemma PresentValueLabel(node: JsonNode, local: bool, isReference: map<string, Json> -> bool)
    requires Side(node, local).Some?
    ensures var e := Side(node, local).value;
      GetText(Node(node), local, isReference) == Returns(Some(node.key + ": null")) <==>
        e.JNull? || e == JArray([]) || (e.JObject? && isReference(e.fields) && ReferenceName(e.fields) == Returns("null"))
        || e == JPrimitive("null")
    ensures var e := Side(node, local).value;
      GetText(Node(node), local, isReference).Throws? <==>
        e.JObject? && isReference(e.fields) && ReferenceName(e.fields).Throws?
    ensures GetText(Node(node), local, isReference) != Returns(None)
  {
    var k := node.key;
    var e := Side(node, local).value;
    if e.JArray? && e.items != [] {
      assert |k| < |k + ": null"|;
    }
    if e.JObject? && !isReference(e.fields) {
      assert |k| < |k + ": null"|;
    }
    if e.JObject? && isReference(e.fields) && ReferenceName(e.fields).Returns? {
      var name := ReferenceName(e.fields).value;
      if k + ": " + name == k + ": null" {
        assert name == (k + ": " + name)[|k| + 2..];
        assert (k + ": null")[|k| + 2..] == "null";
      }
    }
    if e.JPrimitive? {
      if k + ": " + e.text == k + ": null" {
        assert e.text == (k + ": " + e.text)[|k| + 2..];
        assert (k + ": null")[|k| + 2..] == "null";
      }
    }
  }

  /** getBackground: only nodes whose two sides differ are highlighted;
      equalValues stands for JsonNode.hasEqualValues. */
  function GetBackground(item: Item, equalValues: (Option<Json>, Option<Json>) -> bool): (c: Option<Colors.RGB>)
    ensures c.Some? ==> c.value == Highlight
  {
    if item.Other? then None
    else if equalValues(item.node.localElement, item.node.remoteElement) then None
    else Some(Highlight)
  }

  lemma HighlightExactlyWhenDifferent(node: JsonNode, equalValues: (Option<Json>, Option<Json>) -> bool)
    ensures GetBackground(Node(node), equalValues) == Some(Highlight) <==>
      !equalValues(node.localElement, node.remoteElement)
    ensures GetBackground(Other, equalValues) == None
  {
  }

  /** ContentProvider.getElements: the children of the first array entry;
      None (Java's null) for any other input. */
  function GetElements(input: Input): (r: Option<seq<JsonNode>>)
    reads if input.ArrayInput? && |input.items| > 0 && input.items[0].Node? then {input.items[0].node} else {}
    ensures r.Some? <==> input.ArrayInput? && |input.items| > 0 && input.items[0].Node?
    ensures r.Some? ==> r.value == input.items[0].node.children
  {
    if !input.ArrayInput? || |input.items| == 0 || !input.items[0].Node? then None
    else Some(input.items[0].node.children)
  }

  /** ContentProvider.getChildren. */
  function GetChildren(item: Item): (r: Option<seq<JsonNode>>)
    reads if item.Node? then {item.node} else {}
    ensures r.Some? <==> item.Node?
    ensures r.Some? ==> r.value == item.node.children
  {
    if item.Node? then Some(item.node.children) else None
  }

  /** ContentProvider.hasChildren. */
  predicate HasChildren(item: Item)
    reads if item.Node? then {item.node} else {}
  {
    item.Node? && item.node.children != []
  }

  /** A node has children exactly when getChildren gives a non-empty list. */
  lemma HasChildrenAgrees(item: Item)
    ensures HasChildren(item) <==> GetChildren(item).Some? && GetChildren(item).value != []
  {
  }

  /** One side of the comparison, with the selection listener folded in. */
  class ModelTree {
    const local: bool
    var counterpart: ModelTree?
    var selection: seq<JsonNode>
    var pauseListening: bool

    constructor (local: bool)
      ensures this.local == local && counterpart == null && selection == [] && !pauseListening
    {
      this.local := local;
      counterpart := null;
      selection := [];
      pauseListening := false;
    }

    /** The two trees point at each other. */
    ghost predicate Paired()
      reads this, counterpart
    {
      counterpart != null && counterpart != this && counterpart.counterpart == this
    }

    /** How many of the two listeners may still react. */
    ghost function Listening(): nat
      reads this, counterpart
      requires Paired()
    {
      (if pauseListening then 0 else 1) + (if counterpart.pauseListening then 0 else 1)
    }

    /** Viewer.setSelection: the viewer takes the selection and notifies
        its listener. */
    method SetSelection(sel: seq<JsonNode>)
      requires Paired()
      modifies this, counterpart
      ensures Paired() && counterpart == old(counterpart)
      ensures pauseListening == old(pauseListening)
      ensures counterpart.pauseListening == old(counterpart.pauseListening)
      ensures selection == sel
      ensures !old(pauseListening) ==> counterpart.selection == sel
      ensures old(pauseListening) ==> counterpart.selection == old(counterpart.selection)
      decreases Listening(), 2
    {
      selection := sel;
      SelectionChanged(sel);
    }

    /** SelectionChangedListener.selectionChanged: unless paused, pauses,
        passes the selection to the counterpart and listens again. */
    method SelectionChanged(sel: seq<JsonNode>)
      requires Paired()
      modifies this, counterpart
      ensures Paired() && counterpart == old(counterpart)
      ensures pauseListening == old(pauseListening)
      ensures counterpart.pauseListening == old(counterpart.pauseListening)
      ensures old(pauseListening) ==> selection == old(selection) && counterpart.selection == old(counterpart.selection)
      ensures !old(pauseListening) ==> counterpart.selection == sel
      ensures !old(pauseListening) && !old(counterpart.pauseListening) ==> selection == sel
      ensures !old(pauseListening) && old(counterpart.pauseListening) ==> selection == old(selection)
      decreases Listening(), 1
    {
      if pauseListening {
        return;
      }
      pauseListening := true;
      counterpart.SetSelection(sel);
      pauseListening := false;
    }
  }
}
