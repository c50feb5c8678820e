/** The XML to JSON converter of `crates/justapi-core/src/xml.rs`: a stack machine
    over parser events, proved equal to a recursive meaning of the element tree. */
module XmlToJson {
  import opened Prelude

  /** What `coerce` yields: a number when the text parses as one, else the text. */
  datatype Scalar = Number(lexeme: string) | Verbatim(text: string)

  datatype Json =
    | Null
    | Leaf(scalar: Scalar)
    | Arr(items: seq<Json>)
    | Obj(fields: map<string, Json>)

  /** Number recognition is a parameter of the whole development. */
  type Coerce = string -> Scalar

  datatype Attr = Attr(name: string, value: string)

  /** Parser events. `Chars` stands for text, CDATA and entity references alike
      (all three append to the pending text), `Ignored` for comments, processing
      instructions, declarations and document types. The end of the sequence is
      the end-of-file event. */
  datatype Event =
    | Start(tag: string, attrs: seq<Attr>)
    | Empty(tag: string, attrs: seq<Attr>)
    | Chars(text: string)
    | End
    | Ignored
    | Malformed

  datatype Outcome = Converted(json: Json) | ParseError | Incomplete | Unbalanced

  datatype Frame = Frame(name: string, obj: map<string, Json>)

  // ------------------------------------------------------------------
  // The machine
  // ------------------------------------------------------------------

  const TEXT_KEY := "#text"

  function Attributes(c: Coerce, attrs: seq<Attr>): map<string, Json> {
    if attrs == [] then map[]
    else
      var last := attrs[|attrs| - 1];
      Attributes(c, attrs[..|attrs| - 1])["@" + last.name := Leaf(c(last.value))]
  }

  function EmptyValue(c: Coerce, attrs: seq<Attr>): Json {
    var obj := Attributes(c, attrs);
    if obj == map[] then Null else Obj(obj)
  }

  function Append(existing: Json, value: Json): seq<Json> {
    if existing.Arr? then existing.items + [value] else [existing, value]
  }

  function InsertInto(obj: map<string, Json>, key: string, value: Json): map<string, Json> {
    if key in obj then obj[key := Arr(Append(obj[key], value))] else obj[key := value]
  }

  /** `insert_child`: attach to the top frame, or synthesise one when there is none. */
  function InsertChild(stack: seq<Frame>, key: string, value: Json): (r: seq<Frame>)
    ensures r != []
  {
    if stack == [] then [Frame(key, map[key := value])]
    else
      var top := stack[|stack| - 1];
      stack[..|stack| - 1] + [top.(obj := InsertInto(top.obj, key, value))]
  }

  /** The value of an element whose children and attributes are in `obj`. */
  function Close(c: Coerce, obj: map<string, Json>, text: string): Json {
    var txt := Trim(text);
    var full := if txt == "" then obj else obj[TEXT_KEY := Leaf(c(txt))];
    if full == map[] then Null
    else if full.Keys == {TEXT_KEY} then full[TEXT_KEY]
    else Obj(full)
  }

  function AtEof(c: Coerce, stack: seq<Frame>, text: string): Outcome {
    if stack != [] then Incomplete
    else if Trim(text) == "" then Converted(Null)
    else Converted(Leaf(c(Trim(text))))
  }

  function Run(c: Coerce, stack: seq<Frame>, text: string, events: seq<Event>): Outcome
    decreases |events|
  {
    if events == [] then AtEof(c, stack, text)
    else
      var rest := events[1..];
      match events[0]
      case Start(tag, attrs) => Run(c, stack + [Frame(tag, Attributes(c, attrs))], "", rest)
      case Empty(tag, attrs) => Run(c, InsertChild(stack, tag, EmptyValue(c, attrs)), text, rest)
      case Chars(t) => Run(c, stack, text + t, rest)
      case Ignored => Run(c, stack, text, rest)
      case Malformed => ParseError
      case End =>
        if stack == [] then Unbalanced
        else
          var top := stack[|stack| - 1];
          var value := Close(c, top.obj, text);
          if |stack| == 1 then Converted(Obj(map[top.name := value]))
          else Run(c, InsertChild(stack[..|stack| - 1], top.name, value), "", rest)
  }

  // ------------------------------------------------------------------
  // Documents and their meaning
  // ------------------------------------------------------------------

  datatype Node =
    | Element(tag: string, attrs: seq<Attr>, body: seq<Node>)
    | SelfClosed(tag: string, attrs: seq<Attr>)
    | CharData(text: string)
    | Misc

  function Flatten(n: Node): seq<Event>
    decreases n, 1
  {
    match n
    case Element(tag, attrs, body) => [Start(tag, attrs)] + FlattenAll(body) + [End]
    case SelfClosed(tag, attrs) => [Empty(tag, attrs)]
    case CharData(t) => [Chars(t)]
    case Misc => [Ignored]
  }

  function FlattenAll(ns: seq<Node>): seq<Event>
    decreases ns, 0
  {
    if ns == [] then [] else FlattenAll(ns[..|ns| - 1]) + Flatten(ns[|ns| - 1])
  }

  /** Pending text once a node has been read: a Start/End child throws away what
      came before it, a self-closed child does not. */
  function NodeText(text: string, n: Node): string {
    match n
    case Element(_, _, _) => ""
    case CharData(t) => text + t
    case _ => text
  }

  function TextAfter(text: string, body: seq<Node>): string {
    if body == [] then text else NodeText(TextAfter(text, body[..|body| - 1]), body[|body| - 1])
  }

  datatype Child = Child(tag: string, value: Json)

  predicate Rooted(n: Node) { n.Element? || n.SelfClosed? }

  function NodeChild(c: Coerce, n: Node): seq<Child>
    decreases n, 2
  {
    if Rooted(n) then [Child(n.tag, Denote(c, n))] else []
  }

  /** The element children of a body with their meanings, in document order. */
  function Children(c: Coerce, body: seq<Node>): seq<Child>
    decreases body, 0
  {
    if body == [] then [] else Children(c, body[..|body| - 1]) + NodeChild(c, body[|body| - 1])
  }

  /** The values of the children tagged `key`, in document order. */
  function Occurrences(kids: seq<Child>, key: string): seq<Json> {
    if kids == [] then []
    else
      var last := kids[|kids| - 1];
      Occurrences(kids[..|kids| - 1], key) + (if last.tag == key then [last.value] else [])
  }

  /** Everything that competes for `key`: an attribute entry first, then the children. */
  function Candidates(attrs: map<string, Json>, kids: seq<Child>, key: string): seq<Json> {
    (if key in attrs then [attrs[key]] else []) + Occurrences(kids, key)
  }

  /** One candidate stands for itself; several become an array, into which a
      leading candidate that is already an array is spliced. */
  function Merge(vs: seq<Json>): Json {
    if vs == [] then Null
    else if |vs| == 1 then vs[0]
    else Arr((if vs[0].Arr? then vs[0].items else [vs[0]]) + vs[1..])
  }

  function Tags(kids: seq<Child>): set<string> {
    if kids == [] then {} else Tags(kids[..|kids| - 1]) + {kids[|kids| - 1].tag}
  }

  function Grouped(attrs: map<string, Json>, kids: seq<Child>): map<string, Json> {
    map key | key in attrs.Keys + Tags(kids) :: Merge(Candidates(attrs, kids, key))
  }

  /** The meaning of a node. Text and miscellany are no children of their own, so
      what stands for them here is never looked at. */
  function Denote(c: Coerce, n: Node): Json
    decreases n, 1
  {
    match n
    case Element(_, attrs, body) =>
      Close(c, Grouped(Attributes(c, attrs), Children(c, body)), TextAfter("", body))
    case SelfClosed(_, attrs) => EmptyValue(c, attrs)
    case CharData(t) => Leaf(c(t))
    case Misc => Null
  }

  lemma {:induction false} OccurrencesNonEmpty(kids: seq<Child>, key: string)
    ensures key in Tags(kids) <==> Occurrences(kids, key) != []
  {
    if kids != [] {
      OccurrencesNonEmpty(kids[..|kids| - 1], key);
    }
  }

  lemma {:induction false} KidsSnoc(kids: seq<Child>, kid: Child, key: string)
    ensures Tags(kids + [kid]) == Tags(kids) + {kid.tag}
    ensures Occurrences(kids + [kid], key) ==
            Occurrences(kids, key) + if kid.tag == key then [kid.value] else []
  {
    assert (kids + [kid])[..|kids|] == kids;
  }

  // ------------------------------------------------------------------
  // The machine computes the meaning
  // ------------------------------------------------------------------

  lemma {:induction false} MergeSnoc(vs: seq<Json>, v: Json)
    requires vs != []
    ensures Merge(vs + [v]) == Arr(Append(Merge(vs), v))
  {
    assert (vs + [v])[1..] == vs[1..] + [v];
  }

  lemma {:induction false} GroupedAt(attrs: map<string, Json>, kids: seq<Child>, kid: Child, key: string)
    requires key in attrs.Keys + Tags(kids) + {kid.tag}
    ensures Merge(Candidates(attrs, kids + [kid], key)) ==
            InsertInto(Grouped(attrs, kids), kid.tag, kid.value)[key]
  {
    KidsSnoc(kids, kid, key);
    OccurrencesNonEmpty(kids, key);
    var before := Candidates(attrs, kids, key);
    if key != kid.tag {
      assert Occurrences(kids + [kid], key) == Occurrences(kids, key);
    } else {
      assert Candidates(attrs, kids + [kid], key) == before + [kid.value];
      if before != [] {
        MergeSnoc(before, kid.value);
      }
    }
  }

  /** Folding one more child in with `insert_child` is grouping with it included. */
  lemma {:induction false} GroupedSnoc(attrs: map<string, Json>, kids: seq<Child>, kid: Child)
    ensures Grouped(attrs, kids + [kid]) == InsertInto(Grouped(attrs, kids), kid.tag, kid.value)
  {
    var l, r := Grouped(attrs, kids + [kid]), InsertInto(Grouped(attrs, kids), kid.tag, kid.value);
    KidsSnoc(kids, kid, kid.tag);
    assert l.Keys == r.Keys;
    forall key | key in l.Keys
      ensures l[key] == r[key]
    {
      GroupedAt(attrs, kids, kid, key);
    }
  }

  /** Reading a whole element subtree is one `insert_child` on the frame below,
      for any stack beneath and any events after. */
  lemma {:induction false} RunElement(c: Coerce, stack: seq<Frame>, text: string, n: Node, rest: seq<Event>)
    requires n.Element?
    ensures Run(c, stack, text, Flatten(n) + rest) ==
            if stack == [] then Converted(Obj(map[n.tag := Denote(c, n)]))
            else Run(c, InsertChild(stack, n.tag, Denote(c, n)), "", rest)
    decreases n, 1
  {
    var frame := Frame(n.tag, Attributes(c, n.attrs));
    var inner := FlattenAll(n.body) + ([End] + rest);
    assert Flatten(n) + rest == [Start(n.tag, n.attrs)] + inner;
    assert Grouped(Attributes(c, n.attrs), []) == Attributes(c, n.attrs);
    RunBody(c, stack, frame.name, Attributes(c, n.attrs), [], "", n.body, [End] + rest);
    assert [] + Children(c, n.body) == Children(c, n.body);
    assert ([End] + rest)[1..] == rest;
  }

  /** Reading one node with the frame `name` on top. */
  lemma {:induction false} RunNode(
    c: Coerce, below: seq<Frame>, name: string, attrs: map<string, Json>, kids: seq<Child>,
    text: string, n: Node, rest: seq<Event>)
    ensures Run(c, below + [Frame(name, Grouped(attrs, kids))], text, Flatten(n) + rest) ==
            Run(c, below + [Frame(name, Grouped(attrs, kids + NodeChild(c, n)))], NodeText(text, n), rest)
    decreases n, 2
  {
    var stack := below + [Frame(name, Grouped(attrs, kids))];
    if Rooted(n) {
      var kid := Child(n.tag, Denote(c, n));
      GroupedSnoc(attrs, kids, kid);
      assert InsertChild(stack, n.tag, kid.value) == below + [Frame(name, Grouped(attrs, kids + [kid]))];
    } else {
      assert kids + [] == kids;
    }
    if n.Element? {
      RunElement(c, stack, text, n, rest);
    } else {
      assert (Flatten(n) + rest)[1..] == rest;
    }
  }

  /** Reading a body folds its children into the open frame and leaves the text
      that follows the last Start/End child pending. */
  lemma {:induction false} RunBody(
    c: Coerce, below: seq<Frame>, name: string, attrs: map<string, Json>, kids: seq<Child>,
    text: string, body: seq<Node>, rest: seq<Event>)
    ensures Run(c, below + [Frame(name, Grouped(attrs, kids))], text, FlattenAll(body) + rest) ==
            Run(c, below + [Frame(name, Grouped(attrs, kids + Children(c, body)))], TextAfter(text, body), rest)
    decreases body, 0
  {
    if body == [] {
      assert FlattenAll(body) + rest == rest;
      assert kids + Children(c, body) == kids;
    } else {
      var init, last := body[..|body| - 1], body[|body| - 1];
      assert FlattenAll(body) + rest == FlattenAll(init) + (Flatten(last) + rest);
      RunBody(c, below, name, attrs, kids, text, init, Flatten(last) + rest);
      RunNode(c, below, name, attrs, kids + Children(c, init), TextAfter(text, init), last, rest);
      assert kids + Children(c, body) == (kids + Children(c, init)) + NodeChild(c, last);
    }
  }

  // ------------------------------------------------------------------
  // Whole documents
  // ------------------------------------------------------------------

  /** What the converter makes of any sequence of top-level nodes. Only the first
      element counts; a self-closed first element is reported as incomplete. */
  function Document(c: Coerce, text: string, ns: seq<Node>): Outcome
    decreases |ns|
  {
    if ns == [] then AtEof(c, [], text)
    else
      match ns[0]
      case Element(tag, _, _) => Converted(Obj(map[tag := Denote(c, ns[0])]))
      case SelfClosed(_, _) => Incomplete
      case CharData(t) => Document(c, text + t, ns[1..])
      case Misc => Document(c, text, ns[1..])
  }

  lemma {:induction false} FlattenAllSnoc(ns: seq<Node>, n: Node)
    ensures FlattenAll(ns + [n]) == FlattenAll(ns) + Flatten(n)
  {
    assert (ns + [n])[..|ns|] == ns;
  }

  lemma {:induction false} Associates(a: seq<Event>, b: seq<Event>, c: seq<Event>)
    ensures (a + b) + c == a + (b + c)
  {
  }

  lemma {:induction false} FlattenAllConcat(a: seq<Node>, b: seq<Node>)
    ensures FlattenAll(a + b) == FlattenAll(a) + FlattenAll(b)
  {
    if b == [] {
      assert a + b == a && FlattenAll(a) + FlattenAll(b) == FlattenAll(a);
    } else {
      var init, last := b[..|b| - 1], b[|b| - 1];
      assert a + b == (a + init) + [last] && b == init + [last];
      FlattenAllSnoc(a + init, last);
      FlattenAllSnoc(init, last);
      FlattenAllConcat(a, init);
      Associates(FlattenAll(a), FlattenAll(init), Flatten(last));
    }
  }

  lemma {:induction false} FlattenAllCons(ns: seq<Node>)
    requires ns != []
    ensures FlattenAll(ns) == Flatten(ns[0]) + FlattenAll(ns[1..])
  {
    var first := [ns[0]];
    assert ns == first + ns[1..];
    FlattenAllConcat(first, ns[1..]);
    assert first[..0] == [];
    assert FlattenAll(first) == FlattenAll(first[..0]) + Flatten(ns[0]) == Flatten(ns[0]);
  }

  /** Once a frame is open, balanced content never closes it. */
  lemma {:induction false} OpenStaysOpen(c: Coerce, frame: Frame, text: string, ns: seq<Node>)
    ensures Run(c, [frame], text, FlattenAll(ns)) == Incomplete
  {
    assert Grouped(frame.obj, []) == frame.obj;
    assert [] + [Frame(frame.name, frame.obj)] == [frame];
    RunBody(c, [], frame.name, frame.obj, [], text, ns, []);
    assert FlattenAll(ns) + [] == FlattenAll(ns);
  }

  lemma {:induction false} RunDocument(c: Coerce, text: string, ns: seq<Node>)
    ensures Run(c, [], text, FlattenAll(ns)) == Document(c, text, ns)
    decreases |ns|
  {
    if ns != [] {
      FlattenAllCons(ns);
      var first, later := ns[0], ns[1..];
      match first
      case Element(_, _, _) => RunElement(c, [], text, first, FlattenAll(later));
      case SelfClosed(tag, attrs) =>
        assert (Flatten(first) + FlattenAll(later))[1..] == FlattenAll(later);
        OpenStaysOpen(c, Frame(tag, map[tag := EmptyValue(c, attrs)]), text, later);
      case CharData(t) =>
        assert (Flatten(first) + FlattenAll(later))[1..] == FlattenAll(later);
        RunDocument(c, text + t, later);
      case Misc =>
        assert (Flatten(first) + FlattenAll(later))[1..] == FlattenAll(later);
        RunDocument(c, text, later);
    }
  }

  /** A document with a Start/End root converts to `{root tag: meaning}`, whatever
      text, comments and declarations precede it and whatever events follow it. */
  lemma {:induction false} RootConverts(c: Coerce, text: string, prolog: seq<Node>, root: Node, rest: seq<Event>)
    requires root.Element?
    requires forall i :: 0 <= i < |prolog| ==> !Rooted(prolog[i])
    ensures Run(c, [], text, FlattenAll(prolog) + Flatten(root) + rest) ==
            Converted(Obj(map[root.tag := Denote(c, root)]))
    decreases |prolog|
  {
    if prolog == [] {
      PrologEmpty(Flatten(root), rest);
      RunElement(c, [], text, root, rest);
    } else {
      var after := FlattenAll(prolog[1..]) + Flatten(root) + rest;
      FlattenAllCons(prolog);
      PrologStep(c, text, prolog[0], after);
      RootConverts(c, NodeText(text, prolog[0]), prolog[1..], root, rest);
      PrologCons(Flatten(prolog[0]), FlattenAll(prolog[1..]), Flatten(root), rest);
    }
  }

  lemma {:induction false} PrologEmpty(root: seq<Event>, rest: seq<Event>)
    ensures FlattenAll([]) + root + rest == root + rest
  {
    assert FlattenAll([]) + root == root;
  }

  lemma {:induction false} PrologCons(a: seq<Event>, b: seq<Event>, c: seq<Event>, d: seq<Event>)
    ensures (a + b) + c + d == a + (b + c + d)
  {
  }

  /** A node that is no element only adds to the pending text. */
  lemma {:induction false} PrologStep(c: Coerce, text: string, n: Node, after: seq<Event>)
    requires !Rooted(n)
    ensures Run(c, [], text, Flatten(n) + after) == Run(c, [], NodeText(text, n), after)
  {
    assert |Flatten(n)| == 1 && (Flatten(n) + after)[1..] == after;
  }

  // ------------------------------------------------------------------
  // Text that is lost
  // ------------------------------------------------------------------

  /** All the character data of a body. */
  function AllText(body: seq<Node>): string {
    if body == [] then ""
    else
      var last := body[|body| - 1];
      AllText(body[..|body| - 1]) + if last.CharData? then last.text else ""
  }

  /** Some character data stands before a Start/End child. */
  ghost predicate TextBeforeElement(body: seq<Node>) {
    exists i, j :: 0 <= i < j < |body| && body[i].CharData? && body[i].text != "" && body[j].Element?
  }

  lemma {:induction false} NoText(body: seq<Node>)
    ensures AllText(body) == "" <==> forall i :: 0 <= i < |body| && body[i].CharData? ==> body[i].text == ""
  {
    if body != [] {
      var init, last := body[..|body| - 1], body[|body| - 1];
      NoText(init);
      assert forall i :: 0 <= i < |init| ==> body[i] == init[i];
    }
  }

  lemma {:induction false} TextBeforeSnoc(init: seq<Node>, last: Node)
    ensures TextBeforeElement(init + [last]) <==> TextBeforeElement(init) || (last.Element? && AllText(init) != "")
  {
    var body := init + [last];
    NoText(init);
    assert body[|init|] == last && forall i :: 0 <= i < |init| ==> body[i] == init[i];
    if i, j :| 0 <= i < j < |init| && init[i].CharData? && init[i].text != "" && init[j].Element? {
      assert body[i].CharData? && body[j].Element?;
    }
    if last.Element? && AllText(init) != "" {
      var i :| 0 <= i < |init| && init[i].CharData? && init[i].text != "";
      assert body[i].CharData? && body[|init|].Element?;
    }
  }

  /** What is kept never exceeds the text there is, and is all of it exactly when no
      character data stands before a Start/End child. */
  lemma {:induction false} TextKeptExactly(body: seq<Node>)
    ensures |TextAfter("", body)| <= |AllText(body)|
    ensures TextAfter("", body) == AllText(body) <==> !TextBeforeElement(body)
  {
    if body != [] {
      var init, last := body[..|body| - 1], body[|body| - 1];
      TextKeptExactly(init);
      TextBeforeSnoc(init, last);
      assert body == init + [last];
      if last.CharData? {
        SameSuffix(TextAfter("", init), AllText(init), last.text);
      } else {
        assert AllText(body) == AllText(init);
      }
    }
  }

  lemma {:induction false} SameSuffix(a: string, b: string, c: string)
    ensures a + c == b + c <==> a == b
  {
    if a + c == b + c {
      assert |a| == |b| && a == (a + c)[..|a|] && b == (b + c)[..|b|];
    }
  }

  // ------------------------------------------------------------------
  // Repeated children and array values
  // ------------------------------------------------------------------

  /** The elements that collapse to an array: no attribute, no text, and only
      children named `#text`, of which there are several or one that collapses too. */
  predicate CollapsesToArray(n: Node)
    decreases n, 1
  {
    && n.Element?
    && n.attrs == []
    && Trim(TextAfter("", n.body)) == ""
    && OnlyTag(n.body, TEXT_KEY)
    && (ElementCount(n.body) >= 2 || (ElementCount(n.body) == 1 && SomeChildCollapses(n.body)))
  }

  predicate OnlyTag(body: seq<Node>, key: string) {
    forall i :: 0 <= i < |body| && Rooted(body[i]) ==> body[i].tag == key
  }

  function ElementCount(body: seq<Node>): nat {
    if body == [] then 0
    else ElementCount(body[..|body| - 1]) + if Rooted(body[|body| - 1]) then 1 else 0
  }

  predicate SomeChildCollapses(body: seq<Node>)
    decreases body, 0
  {
    body != [] && (CollapsesToArray(body[|body| - 1]) || SomeChildCollapses(body[..|body| - 1]))
  }

  lemma {:induction false} AttributeKeys(c: Coerce, attrs: seq<Attr>)
    ensures attrs == [] <==> Attributes(c, attrs) == map[]
    ensures forall k :: k in Attributes(c, attrs) ==> k != "" && k[0] == '@' && Attributes(c, attrs)[k].Leaf?
  {
    if attrs != [] {
      AttributeKeys(c, attrs[..|attrs| - 1]);
      assert "@" + attrs[|attrs| - 1].name in Attributes(c, attrs);
    }
  }

  lemma {:induction false} OnlyTagSnoc(init: seq<Node>, last: Node, key: string)
    ensures OnlyTag(init + [last], key) <==> OnlyTag(init, key) && (Rooted(last) ==> last.tag == key)
  {
    var body := init + [last];
    if OnlyTag(body, key) {
      assert body[|init|] == last;
      forall i | 0 <= i < |init| && Rooted(init[i])
        ensures init[i].tag == key
      {
        assert body[i] == init[i];
      }
    }
  }

  lemma {:induction false} ChildCount(c: Coerce, body: seq<Node>)
    ensures |Children(c, body)| == ElementCount(body)
  {
    if body != [] {
      ChildCount(c, body[..|body| - 1]);
    }
  }

  lemma {:induction false} SubsetOfSingleton<T>(s: set<T>, t: T, key: T)
    ensures s + {t} <= {key} <==> s <= {key} && t == key
  {
    if s + {t} <= {key} {
      assert t in s + {t};
    }
  }

  lemma {:induction false} ChildTags(c: Coerce, body: seq<Node>, key: string)
    ensures Tags(Children(c, body)) <= {key} <==> OnlyTag(body, key)
  {
    if body != [] {
      var init, last := body[..|body| - 1], body[|body| - 1];
      ChildTags(c, init, key);
      assert body == init + [last];
      OnlyTagSnoc(init, last, key);
      if Rooted(last) {
        KidsSnoc(Children(c, init), Child(last.tag, Denote(c, last)), key);
        SubsetOfSingleton(Tags(Children(c, init)), last.tag, key);
      } else {
        assert Children(c, body) == Children(c, init);
      }
    }
  }

  /** When every element child is tagged `key`, that tag holds all of them. */
  lemma {:induction false} SoleTag(c: Coerce, body: seq<Node>, key: string)
    requires OnlyTag(body, key)
    ensures |Occurrences(Children(c, body), key)| == ElementCount(body)
    ensures ElementCount(body) == 1 ==>
              (Occurrences(Children(c, body), key)[0].Arr? <==> SomeChildCollapses(body))
    ensures ElementCount(body) == 0 ==> !SomeChildCollapses(body)
    decreases body, 0
  {
    if body != [] {
      var init, last := body[..|body| - 1], body[|body| - 1];
      assert body == init + [last];
      OnlyTagSnoc(init, last, key);
      SoleTag(c, init, key);
      if Rooted(last) {
        KidsSnoc(Children(c, init), Child(last.tag, Denote(c, last)), key);
        ArrayValued(c, last);
      } else {
        assert Children(c, body) == Children(c, init);
      }
    }
  }

  lemma {:induction false} UnionIsSingleton<T>(a: set<T>, b: set<T>, key: T)
    requires key !in a
    ensures a + b == {key} <==> a == {} && b == {key}
  {
  }

  lemma {:induction false} GroupedUnderSoleKey(attrs: map<string, Json>, kids: seq<Child>, key: string)
    requires key !in attrs
    ensures Grouped(attrs, kids).Keys == {key} <==> attrs == map[] && Tags(kids) == {key}
    ensures key in Grouped(attrs, kids) ==> Grouped(attrs, kids)[key] == Merge(Occurrences(kids, key))
  {
    UnionIsSingleton(attrs.Keys, Tags(kids), key);
    assert Grouped(attrs, kids).Keys == attrs.Keys + Tags(kids);
    assert [] + Occurrences(kids, key) == Occurrences(kids, key);
  }

  lemma {:induction false} SoleKeyIsArray(c: Coerce, body: seq<Node>, key: string)
    ensures Tags(Children(c, body)) == {key} && Merge(Occurrences(Children(c, body), key)).Arr? <==>
            && OnlyTag(body, key)
            && (ElementCount(body) >= 2 || (ElementCount(body) == 1 && SomeChildCollapses(body)))
    decreases body, 1
  {
    var kids := Children(c, body);
    ChildCount(c, body);
    ChildTags(c, body, key);
    OccurrencesNonEmpty(kids, key);
    if OnlyTag(body, key) {
      SoleTag(c, body, key);
    }
  }

  /** An element's own value is an array exactly when it collapses to one. */
  lemma {:induction false} ArrayValued(c: Coerce, n: Node)
    ensures Denote(c, n).Arr? <==> CollapsesToArray(n)
    decreases n, 1
  {
    if n.Element? {
      var attrs, kids := Attributes(c, n.attrs), Children(c, n.body);
      AttributeKeys(c, n.attrs);
      assert TEXT_KEY !in attrs;
      GroupedUnderSoleKey(attrs, kids, TEXT_KEY);
      SoleKeyIsArray(c, n.body, TEXT_KEY);
    }
  }

  /** The children of a body that carry the tag `key`, in document order. */
  function Tagged(body: seq<Node>, key: string): seq<Node> {
    if body == [] then []
    else
      var last := body[|body| - 1];
      Tagged(body[..|body| - 1], key) + if Rooted(last) && last.tag == key then [last] else []
  }

  function DenoteAll(c: Coerce, ns: seq<Node>): (r: seq<Json>)
    ensures |r| == |ns|
  {
    if ns == [] then [] else DenoteAll(c, ns[..|ns| - 1]) + [Denote(c, ns[|ns| - 1])]
  }

  lemma {:induction false} DenoteAllSnoc(c: Coerce, ns: seq<Node>, n: Node)
    ensures DenoteAll(c, ns + [n]) == DenoteAll(c, ns) + [Denote(c, n)]
  {
    assert (ns + [n])[..|ns|] == ns;
  }

  lemma {:induction false} TaggedOccurrences(c: Coerce, body: seq<Node>, key: string)
    ensures Occurrences(Children(c, body), key) == DenoteAll(c, Tagged(body, key))
    ensures key in Tags(Children(c, body)) <==> Tagged(body, key) != []
  {
    if body != [] {
      var init, last := body[..|body| - 1], body[|body| - 1];
      TaggedOccurrences(c, init, key);
      if !Rooted(last) {
        assert Children(c, body) == Children(c, init);
        assert Tagged(body, key) == Tagged(init, key);
      } else {
        KidsSnoc(Children(c, init), Child(last.tag, Denote(c, last)), key);
        if last.tag != key {
          assert Tagged(body, key) == Tagged(init, key);
        } else {
          DenoteAllSnoc(c, Tagged(init, key), last);
        }
      }
    }
  }

  lemma {:induction false} DenoteAllFirst(c: Coerce, ns: seq<Node>)
    requires ns != []
    ensures DenoteAll(c, ns)[0] == Denote(c, ns[0])
  {
    if |ns| > 1 {
      DenoteAllFirst(c, ns[..|ns| - 1]);
    }
  }

  lemma {:induction false} SplicedDiffers(vs: seq<Json>)
    requires |vs| >= 2
    ensures Merge(vs) == Arr(vs) <==> !vs[0].Arr?
  {
    if !vs[0].Arr? {
      assert [vs[0]] + vs[1..] == vs;
    }
  }

  lemma {:induction false} CloseKeeps(c: Coerce, obj: map<string, Json>, text: string, key: string)
    requires key in obj && key != TEXT_KEY
    ensures Close(c, obj, text).Obj? && key in Close(c, obj, text).fields
    ensures Close(c, obj, text).fields[key] == obj[key]
  {
    var full := if Trim(text) == "" then obj else obj[TEXT_KEY := Leaf(c(Trim(text)))];
    assert key in full.Keys;
  }

  lemma {:induction false} FieldAt(c: Coerce, n: Node, key: string)
    requires n.Element? && Tagged(n.body, key) != []
    requires key != TEXT_KEY && (key == "" || key[0] != '@')
    ensures Denote(c, n).Obj? && key in Denote(c, n).fields
    ensures Denote(c, n).fields[key] == Merge(DenoteAll(c, Tagged(n.body, key)))
  {
    var attrs, kids := Attributes(c, n.attrs), Children(c, n.body);
    AttributeKeys(c, n.attrs);
    TaggedOccurrences(c, n.body, key);
    assert Candidates(attrs, kids, key) == Occurrences(kids, key);
    CloseKeeps(c, Grouped(attrs, kids), TextAfter("", n.body), key);
  }

  /** Under a child tag the converted element holds that child's value if the tag
      occurs once, and otherwise the array of all its children's values in
      document order, except exactly when the first of them collapses to an array. */
  lemma {:induction false} ChildValues(c: Coerce, n: Node, key: string)
    requires n.Element? && Tagged(n.body, key) != []
    requires key != TEXT_KEY && (key == "" || key[0] != '@')
    ensures Denote(c, n).Obj? && key in Denote(c, n).fields
    ensures var same, value := Tagged(n.body, key), Denote(c, n).fields[key];
            && (|same| == 1 ==> value == Denote(c, same[0]))
            && (|same| >= 2 ==> (value == Arr(DenoteAll(c, same)) <==> !CollapsesToArray(same[0])))
  {
    var same := Tagged(n.body, key);
    FieldAt(c, n, key);
    DenoteAllFirst(c, same);
    ArrayValued(c, same[0]);
    if |same| >= 2 {
      SplicedDiffers(DenoteAll(c, same));
    }
  }

  // ------------------------------------------------------------------
  // Attributes and text
  // ------------------------------------------------------------------

  /** Attribute `i` is the last one of its name. */
  predicate LastOfName(attrs: seq<Attr>, i: nat)
    requires i < |attrs|
  {
    forall j :: i < j < |attrs| ==> attrs[j].name != attrs[i].name
  }

  predicate HasAttribute(attrs: seq<Attr>, key: string) {
    exists i :: 0 <= i < |attrs| && key == "@" + attrs[i].name
  }

  lemma {:induction false} SameName(a: string, b: string)
    ensures "@" + a == "@" + b <==> a == b
  {
    if "@" + a == "@" + b {
      assert a == ("@" + a)[1..] == ("@" + b)[1..] == b;
    }
  }

  /** The last attribute of a name is the one that counts, with its own value. */
  lemma {:induction false} AttributeAt(c: Coerce, attrs: seq<Attr>, i: nat)
    requires i < |attrs| && LastOfName(attrs, i)
    ensures "@" + attrs[i].name in Attributes(c, attrs)
    ensures Attributes(c, attrs)["@" + attrs[i].name] == Leaf(c(attrs[i].value))
  {
    var n := |attrs| - 1;
    if i < n {
      assert forall j :: i < j < n ==> attrs[..n][j] == attrs[j];
      AttributeAt(c, attrs[..n], i);
      SameName(attrs[n].name, attrs[i].name);
    }
  }

  lemma {:induction false} AttributeNames(c: Coerce, attrs: seq<Attr>, key: string)
    ensures key in Attributes(c, attrs) <==> HasAttribute(attrs, key)
  {
    if attrs != [] {
      var n := |attrs| - 1;
      AttributeNames(c, attrs[..n], key);
      assert forall j :: 0 <= j < n ==> attrs[..n][j] == attrs[j];
      if i :| 0 <= i < |attrs| && key == "@" + attrs[i].name {
        assert i == n || (i < n && key == "@" + attrs[..n][i].name);
      }
    }
  }

  function BodyOf(n: Node): seq<Node> { if n.Element? then n.body else [] }

  /** An attribute appears under `@name` with its own coerced value, on any element or
      self-closed element, unless a child is tagged so too. */
  lemma {:induction false} AttributeValue(c: Coerce, n: Node, i: nat)
    requires Rooted(n) && i < |n.attrs| && LastOfName(n.attrs, i)
    requires Tagged(BodyOf(n), "@" + n.attrs[i].name) == []
    ensures var key := "@" + n.attrs[i].name;
            Denote(c, n).Obj? && key in Denote(c, n).fields && Denote(c, n).fields[key] == Leaf(c(n.attrs[i].value))
  {
    var key, attrs := "@" + n.attrs[i].name, Attributes(c, n.attrs);
    AttributeAt(c, n.attrs, i);
    if n.Element? {
      TaggedOccurrences(c, n.body, key);
      assert Candidates(attrs, Children(c, n.body), key) == [attrs[key]];
      assert key[0] == '@';
      CloseKeeps(c, Grouped(attrs, Children(c, n.body)), TextAfter("", n.body), key);
    }
  }

  /** An element that has nothing but children tagged `#text` takes their value. */
  predicate StandsForText(n: Node) {
    && n.Element? && n.attrs == [] && Trim(TextAfter("", n.body)) == ""
    && OnlyTag(n.body, TEXT_KEY) && ElementCount(n.body) > 0
  }

  lemma {:induction false} CloseAdds(c: Coerce, obj: map<string, Json>, text: string, key: string)
    requires key != TEXT_KEY && !(obj.Keys == {TEXT_KEY} && Trim(text) == "")
    ensures Close(c, obj, text).Obj? && key in Close(c, obj, text).fields ==> key in obj
  {
    var full := if Trim(text) == "" then obj else obj[TEXT_KEY := Leaf(c(Trim(text)))];
    if full.Keys == {TEXT_KEY} {
      assert Trim(text) != "" && full[TEXT_KEY].Leaf?;
    }
  }

  lemma {:induction false} SoleTextKey(c: Coerce, n: Node)
    requires n.Element?
    ensures var obj := Grouped(Attributes(c, n.attrs), Children(c, n.body));
            obj.Keys == {TEXT_KEY} <==> n.attrs == [] && OnlyTag(n.body, TEXT_KEY) && ElementCount(n.body) > 0
  {
    var attrs, kids := Attributes(c, n.attrs), Children(c, n.body);
    AttributeKeys(c, n.attrs);
    assert TEXT_KEY !in attrs;
    GroupedUnderSoleKey(attrs, kids, TEXT_KEY);
    ChildTags(c, n.body, TEXT_KEY);
    ChildCount(c, n.body);
    TagsEmpty(kids);
  }

  lemma {:induction false} TagsEmpty(kids: seq<Child>)
    ensures Tags(kids) == {} <==> kids == []
  {
    if kids != [] {
      assert kids[|kids| - 1].tag in Tags(kids);
    }
  }

  lemma {:induction false} TakesTextValue(c: Coerce, n: Node)
    requires StandsForText(n)
    ensures Denote(c, n) == Merge(DenoteAll(c, Tagged(n.body, TEXT_KEY)))
  {
    var attrs, kids := Attributes(c, n.attrs), Children(c, n.body);
    SoleTextKey(c, n);
    GroupedUnderSoleKey(attrs, kids, TEXT_KEY);
    TaggedOccurrences(c, n.body, TEXT_KEY);
  }

  /** Of any other node the keys that start with `@` are exactly those of the attributes and
      of the children so tagged. */
  lemma {:induction false} AtKeysExactly(c: Coerce, n: Node, key: string)
    requires Rooted(n) && !StandsForText(n) && key != "" && key[0] == '@'
    ensures Denote(c, n).Obj? && key in Denote(c, n).fields <==>
            HasAttribute(n.attrs, key) || Tagged(BodyOf(n), key) != []
  {
    AttributeNames(c, n.attrs, key);
    if n.Element? {
      var obj := Grouped(Attributes(c, n.attrs), Children(c, n.body));
      TaggedOccurrences(c, n.body, key);
      if key in obj {
        CloseKeeps(c, obj, TextAfter("", n.body), key);
      } else {
        SoleTextKey(c, n);
        CloseAdds(c, obj, TextAfter("", n.body), key);
      }
    }
  }

  predicate NoElements(body: seq<Node>) { forall i :: 0 <= i < |body| ==> !Rooted(body[i]) }

  lemma {:induction false} NoElementsNoChildren(c: Coerce, body: seq<Node>)
    requires NoElements(body)
    ensures Children(c, body) == [] && !TextBeforeElement(body)
  {
    if body != [] {
      NoElementsNoChildren(c, body[..|body| - 1]);
    }
  }

  lemma {:induction false} CloseEmpty(c: Coerce, text: string)
    ensures Close(c, map[], text) == if Trim(text) == "" then Null else Leaf(c(Trim(text)))
  {
    var full: map<string, Json> := map[TEXT_KEY := Leaf(c(Trim(text)))];
    assert full.Keys == {TEXT_KEY};
  }

  /** An element that holds text only is that text, trimmed and coerced, or null. */
  lemma {:induction false} TextOnly(c: Coerce, n: Node)
    requires n.Element? && n.attrs == [] && NoElements(n.body)
    ensures var text := Trim(AllText(n.body));
            Denote(c, n) == if text == "" then Null else Leaf(c(text))
  {
    NoElementsNoChildren(c, n.body);
    TextKeptExactly(n.body);
    assert Attributes(c, n.attrs) == map[];
    assert Grouped(map[], []) == map[];
    CloseEmpty(c, AllText(n.body));
  }

  /** Otherwise the text it keeps, trimmed and coerced, stands under `#text`. */
  lemma {:induction false} TextField(c: Coerce, n: Node)
    requires n.Element? && Trim(TextAfter("", n.body)) != ""
    requires n.attrs != [] || exists key :: key != TEXT_KEY && Tagged(n.body, key) != []
    ensures Denote(c, n).Obj? && TEXT_KEY in Denote(c, n).fields
    ensures Denote(c, n).fields[TEXT_KEY] == Leaf(c(Trim(TextAfter("", n.body))))
  {
    var attrs, kids := Attributes(c, n.attrs), Children(c, n.body);
    var key: string;
    if n.attrs != [] {
      AttributeKeys(c, n.attrs);
      key := "@" + n.attrs[|n.attrs| - 1].name;
      assert key in attrs && key[0] == '@';
    } else {
      key :| key != TEXT_KEY && Tagged(n.body, key) != [];
      TaggedOccurrences(c, n.body, key);
    }
    CloseKeeps(c, Grouped(attrs, kids), TextAfter("", n.body), key);
  }

  /** A self-closed element without attributes is null. */
  lemma {:induction false} SelfClosedNull(c: Coerce, tag: string)
    ensures Denote(c, SelfClosed(tag, [])) == Null
  {
  }

  /** A document without elements is its text, trimmed and coerced, or null. */
  lemma {:induction false} BareText(c: Coerce, text: string, ns: seq<Node>)
    requires NoElements(ns)
    ensures var all := Trim(text + AllText(ns));
            Document(c, text, ns) == Converted(if all == "" then Null else Leaf(c(all)))
    decreases |ns|
  {
    if ns == [] {
      assert text + AllText(ns) == text;
    } else {
      AllTextCons(ns);
      var first := if ns[0].CharData? then ns[0].text else "";
      assert text + (first + AllText(ns[1..])) == (text + first) + AllText(ns[1..]);
      assert !ns[0].CharData? ==> text + first == text;
      BareText(c, text + first, ns[1..]);
    }
  }

  lemma {:induction false} AllTextCons(ns: seq<Node>)
    requires ns != []
    ensures AllText(ns) == (if ns[0].CharData? then ns[0].text else "") + AllText(ns[1..])
  {
    var last := ns[|ns| - 1];
    var tail := if last.CharData? then last.text else "";
    if |ns| == 1 {
      assert ns[..0] == [] && ns[1..] == [];
      assert "" + tail == tail + "";
    } else {
      AllTextCons(ns[..|ns| - 1]);
      assert ns[1..][..|ns| - 2] == ns[..|ns| - 1][1..];
      var head := if ns[0].CharData? then ns[0].text else "";
      assert (head + AllText(ns[1..][..|ns| - 2])) + tail == head + (AllText(ns[1..][..|ns| - 2]) + tail);
    }
  }

  predicate NoTextTag(n: Node)
    decreases n, 1
  {
    (Rooted(n) ==> n.tag != TEXT_KEY) && (n.Element? ==> NoTextTags(n.body))
  }

  predicate NoTextTags(ns: seq<Node>)
    decreases ns, 0
  {
    ns == [] || (NoTextTag(ns[|ns| - 1]) && NoTextTags(ns[..|ns| - 1]))
  }

  lemma {:induction false} NoTextTagAt(ns: seq<Node>, i: nat)
    requires NoTextTags(ns) && i < |ns|
    ensures NoTextTag(ns[i])
  {
    if i < |ns| - 1 {
      NoTextTagAt(ns[..|ns| - 1], i);
    }
  }

  /** With legal XML names (none is `#text`) no element is array-valued. */
  lemma {:induction false} LegalNamesNeverArrays(c: Coerce, n: Node)
    requires NoTextTag(n)
    ensures !Denote(c, n).Arr?
  {
    ArrayValued(c, n);
    if CollapsesToArray(n) {
      SomeElement(n.body);
      var i :| 0 <= i < |n.body| && Rooted(n.body[i]);
      NoTextTagAt(n.body, i);
      assert false;
    }
  }

  lemma {:induction false} SomeElement(body: seq<Node>)
    requires ElementCount(body) > 0
    ensures exists i :: 0 <= i < |body| && Rooted(body[i])
  {
    if !Rooted(body[|body| - 1]) {
      SomeElement(body[..|body| - 1]);
    }
  }

  /** The event parser does not check names: two `#text` children make their
      parent an array. */
  lemma {:induction false} ArrayValuedExample(c: Coerce)
    ensures var odd := Element("a", [], [SelfClosed("#text", []), SelfClosed("#text", [])]);
            Denote(c, odd).Arr?
  {
    var kid := SelfClosed("#text", []);
    var body := [kid, kid];
    assert body[..1] == [kid] && [kid][..0] == [];
    assert TextAfter("", [kid]) == TextAfter("", []) == "";
    assert ElementCount([kid]) == 1;
    ArrayValued(c, Element("a", [], body));
  }

  // ------------------------------------------------------------------
  // Truncated documents
  // ------------------------------------------------------------------

  function Depth(events: seq<Event>): int {
    if events == [] then 0
    else Depth(events[..|events| - 1]) + match events[|events| - 1]
                                         case Start(_, _) => 1
                                         case End => -1
                                         case _ => 0
  }

  lemma {:induction false} DepthConcat(a: seq<Event>, b: seq<Event>)
    ensures Depth(a + b) == Depth(a) + Depth(b)
  {
    if b == [] {
      assert a + b == a;
    } else {
      assert (a + b)[..|a + b| - 1] == a + b[..|b| - 1];
      DepthConcat(a, b[..|b| - 1]);
    }
  }

  /** A run whose stack can never empty out ends at end-of-file as incomplete. */
  lemma {:induction false} NeverCloses(c: Coerce, stack: seq<Frame>, text: string, events: seq<Event>)
    requires Malformed !in events
    requires forall i :: 0 <= i <= |events| ==> |stack| + Depth(events[..i]) >= 1
    ensures Run(c, stack, text, events) == Incomplete
    decreases |events|
  {
    assert events[..0] == [];
    if events != [] {
      var e, rest := events[0], events[1..];
      var step := Depth([e]);
      assert [e][..0] == [];
      forall i | 0 <= i <= |rest|
        ensures Depth(events[..i + 1]) == step + Depth(rest[..i])
      {
        assert events[..i + 1] == [e] + rest[..i];
        DepthConcat([e], rest[..i]);
      }
      assert events[..1] == [e] + rest[..0];
      match e
      case Start(tag, attrs) => NeverCloses(c, stack + [Frame(tag, Attributes(c, attrs))], "", rest);
      case Empty(tag, attrs) => NeverCloses(c, InsertChild(stack, tag, EmptyValue(c, attrs)), text, rest);
      case Chars(t) => NeverCloses(c, stack, text + t, rest);
      case Ignored => NeverCloses(c, stack, text, rest);
      case End =>
        assert Depth(events[..0 + 1]) == step + Depth(rest[..0]);
        var top := stack[|stack| - 1];
        NeverCloses(c, InsertChild(stack[..|stack| - 1], top.name, Close(c, top.obj, text)), "", rest);
    }
  }

  /** A parse error surfaces wherever it stands in a document that is still open. */
  lemma {:induction false} ErrorSurfaces(
    c: Coerce, stack: seq<Frame>, text: string, events: seq<Event>, rest: seq<Event>)
    requires Malformed !in events
    requires forall i :: 0 <= i <= |events| ==> |stack| + Depth(events[..i]) >= 1
    ensures Run(c, stack, text, events + ([Malformed] + rest)) == ParseError
    decreases |events|
  {
    var all := events + ([Malformed] + rest);
    assert events[..0] == [];
    if events == [] {
      assert all[0] == Malformed;
    } else {
      var e, later := events[0], events[1..];
      var step := Depth([e]);
      assert [e][..0] == [] && all[0] == e && all[1..] == later + ([Malformed] + rest);
      forall i | 0 <= i <= |later|
        ensures Depth(events[..i + 1]) == step + Depth(later[..i])
      {
        assert events[..i + 1] == [e] + later[..i];
        DepthConcat([e], later[..i]);
      }
      match e
      case Start(tag, attrs) => ErrorSurfaces(c, stack + [Frame(tag, Attributes(c, attrs))], "", later, rest);
      case Empty(tag, attrs) => ErrorSurfaces(c, InsertChild(stack, tag, EmptyValue(c, attrs)), text, later, rest);
      case Chars(t) => ErrorSurfaces(c, stack, text + t, later, rest);
      case Ignored => ErrorSurfaces(c, stack, text, later, rest);
      case End =>
        assert Depth(events[..0 + 1]) == step + Depth(later[..0]);
        var top := stack[|stack| - 1];
        ErrorSurfaces(c, InsertChild(stack[..|stack| - 1], top.name, Close(c, top.obj, text)), "", later, rest);
    }
  }

  /** Before the root, a parse error is reported as one and a stray end tag as unbalanced. */
  lemma {:induction false} PrologErrors(c: Coerce, text: string, prolog: seq<Node>, bad: Event, rest: seq<Event>)
    requires NoElements(prolog) && (bad == Malformed || bad == End)
    ensures Run(c, [], text, FlattenAll(prolog) + ([bad] + rest)) == if bad == Malformed then ParseError else Unbalanced
    decreases |prolog|
  {
    var tail := [bad] + rest;
    if prolog == [] {
      assert FlattenAll(prolog) + tail == tail;
    } else {
      FlattenAllCons(prolog);
      Associates(Flatten(prolog[0]), FlattenAll(prolog[1..]), tail);
      PrologStep(c, text, prolog[0], FlattenAll(prolog[1..]) + tail);
      PrologErrors(c, NodeText(text, prolog[0]), prolog[1..], bad, rest);
    }
  }

  lemma {:induction false} BodyBalanced(ns: seq<Node>)
    ensures Depth(FlattenAll(ns)) == 0 && Malformed !in FlattenAll(ns)
    decreases ns, 0
  {
    if ns != [] {
      var init, last := ns[..|ns| - 1], ns[|ns| - 1];
      BodyBalanced(init);
      NodeBalanced(last);
      DepthConcat(FlattenAll(init), Flatten(last));
    }
  }

  lemma {:induction false} NodeBalanced(n: Node)
    ensures Depth(Flatten(n)) == 0 && Malformed !in Flatten(n)
    decreases n, 1
  {
    var f := Flatten(n);
    if n.Element? {
      var s := [Start(n.tag, n.attrs)];
      assert s[..0] == [];
      BodyBalanced(n.body);
      DepthConcat(s, FlattenAll(n.body));
      assert f[..|f| - 1] == s + FlattenAll(n.body);
    } else {
      assert f[..0] == [];
    }
  }

  lemma {:induction false} DepthOfBody(ns: seq<Node>, i: nat)
    requires i <= |FlattenAll(ns)|
    ensures Depth(FlattenAll(ns)[..i]) >= 0
    decreases ns, 0
  {
    if ns == [] {
      assert FlattenAll(ns)[..i] == [];
    } else {
      var init, last := ns[..|ns| - 1], ns[|ns| - 1];
      var a, b := FlattenAll(init), Flatten(last);
      if i <= |a| {
        assert (a + b)[..i] == a[..i];
        DepthOfBody(init, i);
      } else {
        assert (a + b)[..i] == a + b[..i - |a|];
        BodyBalanced(init);
        DepthConcat(a, b[..i - |a|]);
        DepthOfNode(last, i - |a|);
      }
    }
  }

  /** Strictly inside an element's events its start tag is still open. */
  lemma {:induction false} DepthOfNode(n: Node, i: nat)
    requires i <= |Flatten(n)|
    ensures Depth(Flatten(n)[..i]) >= if n.Element? && 0 < i < |Flatten(n)| then 1 else 0
    decreases n, 1
  {
    var f := Flatten(n);
    if i == 0 {
      assert f[..i] == [];
    } else if i == |f| {
      assert f[..i] == f;
      NodeBalanced(n);
    } else if n.Element? {
      DepthInside(n.tag, n.attrs, FlattenAll(n.body), i);
      DepthOfBody(n.body, i - 1);
    }
  }

  lemma {:induction false} DepthInside(tag: string, attrs: seq<Attr>, inner: seq<Event>, i: nat)
    requires 0 < i < |inner| + 2
    ensures Depth(([Start(tag, attrs)] + inner + [End])[..i]) == 1 + Depth(inner[..i - 1])
  {
    var s := [Start(tag, attrs)];
    assert (s + inner + [End])[..i] == s + inner[..i - 1];
    DepthConcat(s, inner[..i - 1]);
    assert s[..0] == [] && Depth(s) == 1;
  }

  /** Cut off anywhere after its first event and before its last, a document is
      never mistaken for a complete one. */
  lemma {:induction false} TruncatedIsIncomplete(c: Coerce, root: Node, i: nat)
    requires root.Element? && 0 < i < |Flatten(root)|
    ensures Run(c, [], "", Flatten(root)[..i]) == Incomplete
  {
    var f := Flatten(root);
    var cut := f[..i];
    var rest := cut[1..];
    assert f[0] == Start(root.tag, root.attrs);
    NodeBalanced(root);
    forall k | 0 <= k <= |rest|
      ensures 1 + Depth(rest[..k]) >= 1
    {
      assert f[..k + 1] == [f[0]] + rest[..k];
      DepthConcat([f[0]], rest[..k]);
      assert [f[0]][..0] == [];
      DepthOfNode(root, k + 1);
    }
    NeverCloses(c, [] + [Frame(root.tag, Attributes(c, root.attrs))], "", rest);
  }

  // ------------------------------------------------------------------
  // The converter itself
  // ------------------------------------------------------------------

  /** `xml_to_json` over the events of its input. */
  method Convert(c: Coerce, events: seq<Event>) returns (r: Outcome)
    ensures r == Run(c, [], "", events)
    ensures forall ns :: events == FlattenAll(ns) ==> r == Document(c, "", ns)
  {
    forall ns | events == FlattenAll(ns)
      ensures Run(c, [], "", events) == Document(c, "", ns)
    {
      RunDocument(c, "", ns);
    }
    var stack: seq<Frame> := [];
    var text := "";
    var i := 0;
    while i < |events|
      invariant 0 <= i <= |events|
      invariant Run(c, stack, text, events[i..]) == Run(c, [], "", events)
    {
      assert events[i..][1..] == events[i + 1..];
      match events[i] {
      case Start(tag, attrs) =>
        stack := stack + [Frame(tag, Attributes(c, attrs))];
        text := "";
      case Empty(tag, attrs) =>
        stack := InsertChild(stack, tag, EmptyValue(c, attrs));
      case Chars(t) =>
        text := text + t;
      case Ignored =>
      case Malformed =>
        return ParseError;
      case End =>
        if stack == [] {
          return Unbalanced;
        }
        var isRoot := |stack| == 1;
        var top := stack[|stack| - 1];
        stack := stack[..|stack| - 1];
        var value := Close(c, top.obj, text);
        text := "";
        if isRoot {
          return Converted(Obj(map[top.name := value]));
        }
        stack := InsertChild(stack, top.name, value);
      }
      i := i + 1;
    }
    r := AtEof(c, stack, text);
  }
}
