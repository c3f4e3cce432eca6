/**
  * The OpenAPI bundler: JSON pointers, and the inlining of references to other files with
  * a shared file cache. Objects keep their fields in order; keys are strings. Joining a
  * relative path to a file's directory is the parameter `locate`.
  */
module OpenApiBundle {
  import opened Common

  // ---- JSON pointers (section 4 of RFC 6901) ------------------------------------------------

  /** `gsub("~" + code, to)`. */
  function Replace(s: string, code: char, to: char): string {
    if s == "" then ""
    else if |s| >= 2 && s[0] == '~' && s[1] == code then [to] + Replace(s[2..], code, to)
    else [s[0]] + Replace(s[1..], code, to)
  }

  function Unescape(s: string): string {
    Replace(Replace(s, '1', '/'), '0', '~')
  }

  function EscapeChar(c: char): string {
    if c == '~' then "~0" else if c == '/' then "~1" else [c]
  }

  /** The escaping of reference tokens. */
  function Escape(s: string): string {
    if s == "" then "" else EscapeChar(s[0]) + Escape(s[1..])
  }

  /** The string between escaping and half-unescaping: only the tildes are escaped. */
  function EscapeTildes(s: string): string {
    if s == "" then "" else (if s[0] == '~' then "~0" else [s[0]]) + EscapeTildes(s[1..])
  }

  lemma {:induction false} ReplacePlain(c: char, rest: string, code: char, to: char)
    requires c != '~'
    ensures Replace([c] + rest, code, to) == [c] + Replace(rest, code, to)
  {
    assert ([c] + rest)[1..] == rest;
  }

  lemma {:induction false} ReplaceCode(c: char, rest: string, code: char, to: char)
    requires c != '~'
    ensures Replace(['~', c] + rest, code, to) == (if c == code then [to] else ['~', c]) + Replace(rest, code, to)
  {
    var s := ['~', c] + rest;
    assert s[2..] == rest;
    if c != code {
      assert s[1..] == [c] + rest;
      ReplacePlain(c, rest, code, to);
    }
  }

  lemma {:induction false} UnescapeSlashes(s: string)
    ensures Replace(Escape(s), '1', '/') == EscapeTildes(s)
  {
    if s != "" {
      var rest := Escape(s[1..]);
      UnescapeSlashes(s[1..]);
      if s[0] == '~' {
        ReplaceCode('0', rest, '1', '/');
      } else if s[0] == '/' {
        ReplaceCode('1', rest, '1', '/');
      } else {
        ReplacePlain(s[0], rest, '1', '/');
      }
    }
  }

  lemma {:induction false} UnescapeTildes(s: string)
    ensures Replace(EscapeTildes(s), '0', '~') == s
  {
    if s != "" {
      var rest := EscapeTildes(s[1..]);
      UnescapeTildes(s[1..]);
      if s[0] == '~' {
        ReplaceCode('0', rest, '0', '~');
      } else {
        ReplacePlain(s[0], rest, '0', '~');
      }
    }
  }

  /** Replacing `~1` before `~0` undoes the escaping of every string. */
  lemma {:induction false} UnescapeInvertsEscape(s: string)
    ensures Unescape(Escape(s)) == s
  {
    UnescapeSlashes(s);
    UnescapeTildes(s);
  }

  /** All pieces between separators, empty ones included. */
  function Pieces(s: string): (r: seq<string>)
    ensures |r| > 0
  {
    if s == "" then [""]
    else
      var rest := Pieces(s[1..]);
      if s[0] == '/' then [""] + rest else [[s[0]] + rest[0]] + rest[1..]
  }

  function DropTrailingEmpty(tokens: seq<string>): seq<string> {
    if tokens != [] && tokens[|tokens| - 1] == "" then DropTrailingEmpty(tokens[..|tokens| - 1]) else tokens
  }

  /** Ruby's `split("/")` drops the empty pieces at the end. */
  function Split(s: string): seq<string> {
    DropTrailingEmpty(Pieces(s))
  }

  function UnescapeAll(tokens: seq<string>): (keys: seq<string>)
    ensures |keys| == |tokens| && forall i | 0 <= i < |tokens| :: keys[i] == Unescape(tokens[i])
  {
    seq(|tokens|, i requires 0 <= i < |tokens| => Unescape(tokens[i]))
  }

  /** The keys `resolve_pointer` fetches one after the other. */
  function Decode(pointer: string): seq<string> {
    if pointer == "" || pointer == "/" then []
    else UnescapeAll(Split(if pointer[0] == '/' then pointer[1..] else pointer))
  }

  function Encode(keys: seq<string>): string {
    if keys == [] then "" else "/" + Escape(keys[0]) + Encode(keys[1..])
  }

  predicate NoSlash(s: string) { '/' !in s }

  lemma {:induction false} EscapeFacts(s: string)
    ensures NoSlash(Escape(s)) && (Escape(s) == "" <==> s == "")
  {
    if s != "" {
      EscapeFacts(s[1..]);
    }
  }

  lemma {:induction false} PiecesOfTokenThen(token: string, rest: string)
    requires NoSlash(token) && (rest == "" || rest[0] == '/')
    ensures Pieces(token + rest) == [token] + (if rest == "" then [] else Pieces(rest[1..]))
  {
    if token == "" {
      assert token + rest == rest;
    } else {
      var s := token + rest;
      assert s[1..] == token[1..] + rest;
      assert NoSlash(token[1..]);
      PiecesOfTokenThen(token[1..], rest);
      assert token == [token[0]] + token[1..];
    }
  }

  function EscapeAll(keys: seq<string>): (tokens: seq<string>)
    ensures |tokens| == |keys| && forall i | 0 <= i < |keys| :: tokens[i] == Escape(keys[i])
  {
    seq(|keys|, i requires 0 <= i < |keys| => Escape(keys[i]))
  }

  lemma {:induction false} EscapeAllSteps(keys: seq<string>)
    requires keys != []
    ensures EscapeAll(keys) == [Escape(keys[0])] + EscapeAll(keys[1..])
  {
  }

  lemma {:induction false} EncodeSteps(keys: seq<string>)
    requires keys != []
    ensures Encode(keys)[0] == '/' && Encode(keys)[1..] == Escape(keys[0]) + Encode(keys[1..])
  {
    var rest := Escape(keys[0]) + Encode(keys[1..]);
    assert Encode(keys) == "/" + rest;
  }

  lemma {:induction false} PiecesOfEncoding(keys: seq<string>)
    requires keys != []
    ensures Encode(keys)[0] == '/' && Pieces(Encode(keys)[1..]) == EscapeAll(keys)
  {
    var rest := Encode(keys[1..]);
    EncodeSteps(keys);
    EscapeFacts(keys[0]);
    EscapeAllSteps(keys);
    if keys[1..] != [] {
      PiecesOfEncoding(keys[1..]);
    }
    PiecesOfTokenThen(Escape(keys[0]), rest);
  }

  lemma {:induction false} UnescapeAllInverts(keys: seq<string>)
    ensures UnescapeAll(EscapeAll(keys)) == keys
  {
    forall i | 0 <= i < |keys| ensures UnescapeAll(EscapeAll(keys))[i] == keys[i] {
      UnescapeInvertsEscape(keys[i]);
    }
  }

  lemma {:induction false} DropCommutes(keys: seq<string>)
    ensures UnescapeAll(DropTrailingEmpty(EscapeAll(keys))) == DropTrailingEmpty(keys)
  {
    if keys == [] {
    } else {
      var n := |keys| - 1;
      EscapeFacts(keys[n]);
      if keys[n] == "" {
        assert EscapeAll(keys)[..n] == EscapeAll(keys[..n]);
        DropCommutes(keys[..n]);
      } else {
        assert DropTrailingEmpty(EscapeAll(keys)) == EscapeAll(keys);
        UnescapeAllInverts(keys);
      }
    }
  }

  /** Decoding an encoded key path loses exactly the empty keys at its end. */
  lemma {:induction false} DecodeOfEncode(keys: seq<string>)
    ensures Decode(Encode(keys)) == DropTrailingEmpty(keys)
    ensures Decode(Encode(keys)) == keys <==> keys == [] || keys[|keys| - 1] != ""
  {
    if keys != [] {
      PiecesOfEncoding(keys);
      DropCommutes(keys);
      var pointer := Encode(keys);
      if pointer == "/" {
        assert pointer[1..] == "";
        assert EscapeAll(keys) == [""];
        assert DropTrailingEmpty([""]) == [] by { assert [""][..0] == []; }
      }
      DropShortens(keys);
    }
  }

  lemma {:induction false} DropShortens(keys: seq<string>)
    ensures |DropTrailingEmpty(keys)| <= |keys|
    ensures keys != [] && keys[|keys| - 1] == "" ==> |DropTrailingEmpty(keys)| < |keys|
  {
    if keys != [] {
      DropShortens(keys[..|keys| - 1]);
    }
  }

  // ---- Documents ------------------------------------------------------------------------------

  datatype Node = Text(text: string) | Other(id: nat) | Array(items: Nodes) | Object(fields: Fields)

  datatype Nodes = NoNodes | Nodes(head: Node, tail: Nodes)

  datatype Fields = NoFields | Field(key: string, value: Node, rest: Fields)

  type Path = string

  datatype Repository = Repository(files: map<Path, Node>, locate: (Path, string) -> Path)

  function Fetch(fields: Fields, key: string): Option<Node> {
    match fields
    case NoFields => None
    case Field(k, value, rest) => if k == key then Some(value) else Fetch(rest, key)
  }

  /** `current.fetch(segment)` along the keys; anything but an object with the key raises. */
  function Walk(node: Node, keys: seq<string>): Option<Node>
    decreases |keys|
  {
    if keys == [] then Some(node)
    else if !node.Object? then None
    else
      var child := Fetch(node.fields, keys[0]);
      if child.None? then None else Walk(child.value, keys[1..])
  }

  /** The text of a reference to another file, when the node is nothing else. */
  function External(node: Node): Option<string> {
    if node.Object? && node.fields.Field? && node.fields.key == "$ref" && node.fields.rest.NoFields?
       && node.fields.value.Text? && !("#" <= node.fields.value.text)
    then Some(node.fields.value.text)
    else None
  }

  function HashAt(ref: string): (i: nat)
    ensures i <= |ref|
  {
    if ref == "" || ref[0] == '#' then 0 else 1 + HashAt(ref[1..])
  }

  datatype Place = Place(node: Node, base: Path)

  /** What a reference in the file `base` names. The empty reference has no path and raises. */
  function Target(w: Repository, base: Path, ref: string): Option<Place> {
    var hash := HashAt(ref);
    var path := w.locate(base, ref[..hash]);
    if ref == "" || path !in w.files then None
    else
      var pointer := if hash < |ref| then ref[hash + 1..] else "";
      var found := Walk(w.files[path], Decode(pointer));
      if found.None? then None else Some(Place(found.value, path))
  }

  /** Followed are exactly the objects whose only field is `$ref` with a text that does not start with a hash. */
  lemma {:induction false} ExternalExactly(node: Node, ref: string)
    ensures External(node) == Some(ref)
       <==> node == Object(Field("$ref", Text(ref), NoFields)) && (ref == "" || ref[0] != '#')
  {
    assert "#" <= ref <==> ref != "" && ref[0] == '#';
  }

  lemma {:induction false} HashFollows(file: string, rest: string)
    requires '#' !in file
    ensures HashAt(file) == |file| && HashAt(file + "#" + rest) == |file|
  {
    if file != "" {
      HashFollows(file[1..], rest);
      assert (file + "#" + rest)[1..] == file[1..] + "#" + rest;
    }
  }

  /**
    * A reference with a pointer names the node its keys lead to, without the empty keys at the end, in the file it
    * names from its own file; references inside that node are taken from that file. Without a pointer it names the
    * whole document.
    */
  lemma {:induction false} ReferenceNames(w: Repository, base: Path, file: string, keys: seq<string>)
    requires '#' !in file
    ensures var path := w.locate(base, file);
            var found := if path in w.files then Walk(w.files[path], DropTrailingEmpty(keys)) else None;
            Target(w, base, file + "#" + Encode(keys)) == if found.None? then None else Some(Place(found.value, path))
    ensures var path := w.locate(base, file);
            Target(w, base, file) == if file == "" || path !in w.files then None else Some(Place(w.files[path], path))
  {
    HashFollows(file, Encode(keys));
    var ref := file + "#" + Encode(keys);
    assert ref[..|file|] == file && ref[|file| + 1..] == Encode(keys);
    DecodeOfEncode(keys);
    assert file[..|file|] == file;
    assert Decode("") == [];
  }

  lemma {:induction false} WalkSplits(node: Node, a: seq<string>, b: seq<string>)
    ensures Walk(node, a + b) == var mid := Walk(node, a); if mid.None? then None else Walk(mid.value, b)
    decreases |a|
  {
    if a == [] {
      assert a + b == b;
    } else {
      assert (a + b)[1..] == a[1..] + b;
      if node.Object? && Fetch(node.fields, a[0]).Some? {
        WalkSplits(Fetch(node.fields, a[0]).value, a[1..], b);
      }
    }
  }

  // ---- Inlining ---------------------------------------------------------------------------------

  /** `TooDeep` stands for a run that follows more than the given number of nested references. */
  datatype Outcome<+T> = Done(value: T) | Raised | TooDeep

  /** What a reference in a file names. */
  type Links = (Path, string) -> Option<Place>

  function LinksOf(w: Repository): Links {
    (base, ref) => Target(w, base, ref)
  }

  function Bundle(links: Links, depth: nat, node: Node, base: Path): Outcome<Node>
    decreases depth, node
  {
    var ref := External(node);
    if ref.Some? then
      var target := links(base, ref.value);
      if target.None? then Raised
      else if depth == 0 then TooDeep
      else Bundle(links, depth - 1, target.value.node, target.value.base)
    else
      match node
      case Text(_) => Done(node)
      case Other(_) => Done(node)
      case Array(items) => WrapItems(BundleItems(links, depth, items, base))
      case Object(fields) => WrapFields(BundleFields(links, depth, fields, base))
  }

  function WrapItems(r: Outcome<Nodes>): Outcome<Node> {
    match r case Done(items) => Done(Array(items)) case Raised => Raised case TooDeep => TooDeep
  }

  function WrapFields(r: Outcome<Fields>): Outcome<Node> {
    match r case Done(fields) => Done(Object(fields)) case Raised => Raised case TooDeep => TooDeep
  }

  function BundleItems(links: Links, depth: nat, items: Nodes, base: Path): Outcome<Nodes>
    decreases depth, items
  {
    match items
    case NoNodes => Done(items)
    case Nodes(head, tail) =>
      match Bundle(links, depth, head, base)
      case Raised => Raised
      case TooDeep => TooDeep
      case Done(h) =>
        match BundleItems(links, depth, tail, base)
        case Raised => Raised
        case TooDeep => TooDeep
        case Done(t) => Done(Nodes(h, t))
  }

  function BundleFields(links: Links, depth: nat, fields: Fields, base: Path): Outcome<Fields>
    decreases depth, fields
  {
    match fields
    case NoFields => Done(fields)
    case Field(key, value, rest) =>
      match Bundle(links, depth, value, base)
      case Raised => Raised
      case TooDeep => TooDeep
      case Done(v) =>
        match BundleFields(links, depth, rest, base)
        case Raised => Raised
        case TooDeep => TooDeep
        case Done(r) => Done(Field(key, v, r))
  }

  // ---- Depth does not matter once it is enough -------------------------------------------------------

  lemma {:induction false} BundleOfArray(links: Links, depth: nat, node: Node, base: Path)
    requires node.Array?
    ensures Bundle(links, depth, node, base) == WrapItems(BundleItems(links, depth, node.items, base))
  {
  }

  lemma {:induction false} BundleOfObject(links: Links, depth: nat, node: Node, base: Path)
    requires node.Object? && External(node).None?
    ensures Bundle(links, depth, node, base) == WrapFields(BundleFields(links, depth, node.fields, base))
  {
  }

  lemma {:induction false} DeeperIsSame(links: Links, d: nat, e: nat, node: Node, base: Path)
    requires d <= e && !Bundle(links, d, node, base).TooDeep?
    ensures Bundle(links, e, node, base) == Bundle(links, d, node, base)
    decreases d, node, 1
  {
    if External(node).Some? {
      DeeperReference(links, d, e, node, base);
    } else if node.Array? {
      BundleOfArray(links, d, node, base);
      BundleOfArray(links, e, node, base);
      DeeperItems(links, d, e, node.items, base);
    } else if node.Object? {
      BundleOfObject(links, d, node, base);
      BundleOfObject(links, e, node, base);
      DeeperFields(links, d, e, node.fields, base);
    }
  }

  lemma {:induction false} DeeperReference(links: Links, d: nat, e: nat, node: Node, base: Path)
    requires d <= e && External(node).Some? && !Bundle(links, d, node, base).TooDeep?
    ensures Bundle(links, e, node, base) == Bundle(links, d, node, base)
    decreases d, node, 0
  {
    var target := links(base, External(node).value);
    if target.Some? {
      DeeperIsSame(links, d - 1, e - 1, target.value.node, target.value.base);
    }
  }

  lemma {:induction false} DeeperItems(links: Links, d: nat, e: nat, items: Nodes, base: Path)
    requires d <= e && !BundleItems(links, d, items, base).TooDeep?
    ensures BundleItems(links, e, items, base) == BundleItems(links, d, items, base)
    decreases d, items
  {
    if items.Nodes? {
      DeeperIsSame(links, d, e, items.head, base);
      if Bundle(links, d, items.head, base).Done? {
        DeeperItems(links, d, e, items.tail, base);
      }
    }
  }

  lemma {:induction false} DeeperFields(links: Links, d: nat, e: nat, fields: Fields, base: Path)
    requires d <= e && !BundleFields(links, d, fields, base).TooDeep?
    ensures BundleFields(links, e, fields, base) == BundleFields(links, d, fields, base)
    decreases d, fields
  {
    if fields.Field? {
      DeeperIsSame(links, d, e, fields.value, base);
      if Bundle(links, d, fields.value, base).Done? {
        DeeperFields(links, d, e, fields.rest, base);
      }
    }
  }

  // ---- Termination --------------------------------------------------------------------------------------

  type Rank = (Path, string) -> nat

  /** Every reference in the node that names something has a rank below `n`. */
  predicate Below(links: Links, rank: Rank, n: nat, node: Node, base: Path)
    decreases node
  {
    var ref := External(node);
    if ref.Some? then links(base, ref.value).Some? ==> rank(base, ref.value) < n
    else
      match node
      case Text(_) => true
      case Other(_) => true
      case Array(items) => ItemsBelow(links, rank, n, items, base)
      case Object(fields) => FieldsBelow(links, rank, n, fields, base)
  }

  predicate ItemsBelow(links: Links, rank: Rank, n: nat, items: Nodes, base: Path)
    decreases items
  {
    items.Nodes? ==> Below(links, rank, n, items.head, base) && ItemsBelow(links, rank, n, items.tail, base)
  }

  predicate FieldsBelow(links: Links, rank: Rank, n: nat, fields: Fields, base: Path)
    decreases fields
  {
    fields.Field? ==> Below(links, rank, n, fields.value, base) && FieldsBelow(links, rank, n, fields.rest, base)
  }

  /** The reference graph is acyclic: what a reference names refers only to references of lower rank. */
  ghost predicate Acyclic(links: Links, rank: Rank) {
    forall base, ref {:trigger links(base, ref)} | links(base, ref).Some? ::
      Below(links, rank, rank(base, ref), links(base, ref).value.node, links(base, ref).value.base)
  }

  lemma {:induction false} BelowMore(links: Links, rank: Rank, m: nat, n: nat, node: Node, base: Path)
    requires m <= n && Below(links, rank, m, node, base)
    ensures Below(links, rank, n, node, base)
    decreases node
  {
    if External(node).None? {
      if node.Array? { ItemsBelowMore(links, rank, m, n, node.items, base); }
      if node.Object? { FieldsBelowMore(links, rank, m, n, node.fields, base); }
    }
  }

  lemma {:induction false} ItemsBelowMore(links: Links, rank: Rank, m: nat, n: nat, items: Nodes, base: Path)
    requires m <= n && ItemsBelow(links, rank, m, items, base)
    ensures ItemsBelow(links, rank, n, items, base)
    decreases items
  {
    if items.Nodes? {
      BelowMore(links, rank, m, n, items.head, base);
      ItemsBelowMore(links, rank, m, n, items.tail, base);
    }
  }

  lemma {:induction false} FieldsBelowMore(links: Links, rank: Rank, m: nat, n: nat, fields: Fields, base: Path)
    requires m <= n && FieldsBelow(links, rank, m, fields, base)
    ensures FieldsBelow(links, rank, n, fields, base)
    decreases fields
  {
    if fields.Field? {
      BelowMore(links, rank, m, n, fields.value, base);
      FieldsBelowMore(links, rank, m, n, fields.rest, base);
    }
  }

  lemma {:induction false} RankIsEnough(links: Links, rank: Rank, n: nat, node: Node, base: Path)
    requires Acyclic(links, rank) && Below(links, rank, n, node, base)
    ensures !Bundle(links, n, node, base).TooDeep?
    decreases n, node
  {
    var ref := External(node);
    if ref.Some? {
      var target := links(base, ref.value);
      if target.Some? {
        BelowMore(links, rank, rank(base, ref.value), n - 1, target.value.node, target.value.base);
        RankIsEnough(links, rank, n - 1, target.value.node, target.value.base);
      }
    } else if node.Array? {
      RankIsEnoughForItems(links, rank, n, node.items, base);
    } else if node.Object? {
      RankIsEnoughForFields(links, rank, n, node.fields, base);
    }
  }

  lemma {:induction false} RankIsEnoughForItems(links: Links, rank: Rank, n: nat, items: Nodes, base: Path)
    requires Acyclic(links, rank) && ItemsBelow(links, rank, n, items, base)
    ensures !BundleItems(links, n, items, base).TooDeep?
    decreases n, items
  {
    if items.Nodes? {
      RankIsEnough(links, rank, n, items.head, base);
      RankIsEnoughForItems(links, rank, n, items.tail, base);
    }
  }

  lemma {:induction false} RankIsEnoughForFields(links: Links, rank: Rank, n: nat, fields: Fields, base: Path)
    requires Acyclic(links, rank) && FieldsBelow(links, rank, n, fields, base)
    ensures !BundleFields(links, n, fields, base).TooDeep?
    decreases n, fields
  {
    if fields.Field? {
      RankIsEnough(links, rank, n, fields.value, base);
      RankIsEnoughForFields(links, rank, n, fields.rest, base);
    }
  }

  lemma {:induction false} SomeBound(links: Links, rank: Rank, node: Node, base: Path) returns (n: nat)
    ensures Below(links, rank, n, node, base)
    decreases node
  {
    var ref := External(node);
    n := 0;
    if ref.Some? {
      n := rank(base, ref.value) + 1;
    } else if node.Array? {
      n := SomeItemsBound(links, rank, node.items, base);
    } else if node.Object? {
      n := SomeFieldsBound(links, rank, node.fields, base);
    }
  }

  lemma {:induction false} SomeItemsBound(links: Links, rank: Rank, items: Nodes, base: Path) returns (n: nat)
    ensures ItemsBelow(links, rank, n, items, base)
    decreases items
  {
    n := 0;
    if items.Nodes? {
      var a := SomeBound(links, rank, items.head, base);
      var b := SomeItemsBound(links, rank, items.tail, base);
      n := Max(a, b);
      BelowMore(links, rank, a, n, items.head, base);
      ItemsBelowMore(links, rank, b, n, items.tail, base);
    }
  }

  lemma {:induction false} SomeFieldsBound(links: Links, rank: Rank, fields: Fields, base: Path) returns (n: nat)
    ensures FieldsBelow(links, rank, n, fields, base)
    decreases fields
  {
    n := 0;
    if fields.Field? {
      var a := SomeBound(links, rank, fields.value, base);
      var b := SomeFieldsBound(links, rank, fields.rest, base);
      n := Max(a, b);
      BelowMore(links, rank, a, n, fields.value, base);
      FieldsBelowMore(links, rank, b, n, fields.rest, base);
    }
  }

  /** Inlining ends for every document over an acyclic reference graph. */
  lemma {:induction false} AcyclicTerminates(links: Links, rank: Rank, node: Node, base: Path) returns (depth: nat)
    requires Acyclic(links, rank)
    ensures !Bundle(links, depth, node, base).TooDeep?
  {
    depth := SomeBound(links, rank, node, base);
    RankIsEnough(links, rank, depth, node, base);
  }

  // -- and conversely

  ghost predicate Settles(links: Links, p: Place) {
    exists d: nat :: Bundle(links, d, p.node, p.base).Done?
  }

  ghost predicate AllSettle(links: Links) {
    forall base, ref {:trigger links(base, ref)} | links(base, ref).Some? :: Settles(links, links(base, ref).value)
  }

  /** The least depth at which inlining the place ends. */
  function Least(links: Links, p: Place, d: nat): (n: nat)
    requires Bundle(links, d, p.node, p.base).Done?
    ensures n <= d && Bundle(links, n, p.node, p.base).Done?
    ensures n > 0 ==> !Bundle(links, n - 1, p.node, p.base).Done?
  {
    if d > 0 && Bundle(links, d - 1, p.node, p.base).Done? then Least(links, p, d - 1) else d
  }

  ghost function DepthOf(links: Links, p: Place): (n: nat)
    ensures Settles(links, p) ==> Bundle(links, n, p.node, p.base).Done?
    ensures Settles(links, p) && n > 0 ==> !Bundle(links, n - 1, p.node, p.base).Done?
  {
    if Settles(links, p) then
      var d: nat :| Bundle(links, d, p.node, p.base).Done?;
      Least(links, p, d)
    else 0
  }

  ghost function ReferenceDepth(links: Links, base: Path, ref: string): nat {
    if links(base, ref).Some? then DepthOf(links, links(base, ref).value) else 0
  }

  ghost function DepthRank(links: Links): Rank {
    (base: Path, ref: string) => ReferenceDepth(links, base, ref)
  }

  lemma {:induction false} DepthIsLeast(links: Links, p: Place, d: nat)
    requires Bundle(links, d, p.node, p.base).Done?
    ensures DepthOf(links, p) <= d
  {
    var n := DepthOf(links, p);
    if d < n {
      DeeperIsSame(links, d, n - 1, p.node, p.base);
    }
  }

  lemma {:induction false} DoneIsBelow(links: Links, d: nat, node: Node, base: Path)
    requires Bundle(links, d, node, base).Done?
    ensures Below(links, DepthRank(links), d, node, base)
    decreases node
  {
    var ref := External(node);
    if ref.Some? {
      DepthIsLeast(links, links(base, ref.value).value, d - 1);
    } else if node.Array? {
      DoneItemsAreBelow(links, d, node.items, base);
    } else if node.Object? {
      DoneFieldsAreBelow(links, d, node.fields, base);
    }
  }

  lemma {:induction false} DoneItemsAreBelow(links: Links, d: nat, items: Nodes, base: Path)
    requires BundleItems(links, d, items, base).Done?
    ensures ItemsBelow(links, DepthRank(links), d, items, base)
    decreases items
  {
    if items.Nodes? {
      DoneIsBelow(links, d, items.head, base);
      DoneItemsAreBelow(links, d, items.tail, base);
    }
  }

  lemma {:induction false} DoneFieldsAreBelow(links: Links, d: nat, fields: Fields, base: Path)
    requires BundleFields(links, d, fields, base).Done?
    ensures FieldsBelow(links, DepthRank(links), d, fields, base)
    decreases fields
  {
    if fields.Field? {
      DoneIsBelow(links, d, fields.value, base);
      DoneFieldsAreBelow(links, d, fields.rest, base);
    }
  }

  /** Every reference in the node names something. */
  predicate Resolves(links: Links, node: Node, base: Path)
    decreases node
  {
    var ref := External(node);
    if ref.Some? then links(base, ref.value).Some?
    else
      match node
      case Text(_) => true
      case Other(_) => true
      case Array(items) => ItemsResolve(links, items, base)
      case Object(fields) => FieldsResolve(links, fields, base)
  }

  predicate ItemsResolve(links: Links, items: Nodes, base: Path)
    decreases items
  {
    items.Nodes? ==> Resolves(links, items.head, base) && ItemsResolve(links, items.tail, base)
  }

  predicate FieldsResolve(links: Links, fields: Fields, base: Path)
    decreases fields
  {
    fields.Field? ==> Resolves(links, fields.value, base) && FieldsResolve(links, fields.rest, base)
  }

  /** No file that is referred to holds a reference that names nothing. */
  ghost predicate NothingDangles(links: Links) {
    forall base, ref {:trigger links(base, ref)} | links(base, ref).Some? ::
      Resolves(links, links(base, ref).value.node, links(base, ref).value.base)
  }

  lemma {:induction false} NeverRaises(links: Links, d: nat, node: Node, base: Path)
    requires NothingDangles(links) && Resolves(links, node, base)
    ensures !Bundle(links, d, node, base).Raised?
    decreases d, node
  {
    var ref := External(node);
    if ref.Some? {
      if d > 0 {
        var target := links(base, ref.value).value;
        NeverRaises(links, d - 1, target.node, target.base);
      }
    } else if node.Array? {
      ItemsNeverRaise(links, d, node.items, base);
    } else if node.Object? {
      FieldsNeverRaise(links, d, node.fields, base);
    }
  }

  lemma {:induction false} ItemsNeverRaise(links: Links, d: nat, items: Nodes, base: Path)
    requires NothingDangles(links) && ItemsResolve(links, items, base)
    ensures !BundleItems(links, d, items, base).Raised?
    decreases d, items
  {
    if items.Nodes? {
      NeverRaises(links, d, items.head, base);
      ItemsNeverRaise(links, d, items.tail, base);
    }
  }

  lemma {:induction false} FieldsNeverRaise(links: Links, d: nat, fields: Fields, base: Path)
    requires NothingDangles(links) && FieldsResolve(links, fields, base)
    ensures !BundleFields(links, d, fields, base).Raised?
    decreases d, fields
  {
    if fields.Field? {
      NeverRaises(links, d, fields.value, base);
      FieldsNeverRaise(links, d, fields.rest, base);
    }
  }

  /** Where every reference names something, inlining ends for all of them exactly when the graph is acyclic. */
  lemma {:induction false} SettlesExactlyWhenAcyclic(links: Links)
    requires NothingDangles(links)
    ensures AllSettle(links) <==> exists rank :: Acyclic(links, rank)
  {
    if AllSettle(links) {
      forall base, ref {:trigger links(base, ref)} | links(base, ref).Some?
        ensures Below(links, DepthRank(links), DepthRank(links)(base, ref), links(base, ref).value.node, links(base, ref).value.base)
      {
        var p := links(base, ref).value;
        DoneIsBelow(links, DepthOf(links, p), p.node, p.base);
      }
      assert Acyclic(links, DepthRank(links));
    }
    if rank :| Acyclic(links, rank) {
      forall base, ref {:trigger links(base, ref)} | links(base, ref).Some?
        ensures Settles(links, links(base, ref).value)
      {
        var p := links(base, ref).value;
        RankIsEnough(links, rank, rank(base, ref), p.node, p.base);
        NeverRaises(links, rank(base, ref), p.node, p.base);
      }
    }
  }

  /** A reference that names itself is followed for ever. */
  lemma {:induction false} SelfReferenceNeverEnds(links: Links, node: Node, base: Path, depth: nat)
    requires External(node).Some? && links(base, External(node).value) == Some(Place(node, base))
    ensures Bundle(links, depth, node, base).TooDeep?
  {
    if depth > 0 {
      SelfReferenceNeverEnds(links, node, base, depth - 1);
    }
  }

  // ---- What is left in the result ------------------------------------------------------------------------

  /** No node of the tree is an external reference. */
  predicate Closed(node: Node) {
    External(node).None? &&
    match node
    case Text(_) => true
    case Other(_) => true
    case Array(items) => ItemsClosed(items)
    case Object(fields) => FieldsClosed(fields)
  }

  predicate ItemsClosed(items: Nodes) {
    items.Nodes? ==> Closed(items.head) && ItemsClosed(items.tail)
  }

  predicate FieldsClosed(fields: Fields) {
    fields.Field? ==> Closed(fields.value) && FieldsClosed(fields.rest)
  }

  /** A closed document is left as it is, so inlining a closed result again changes nothing. */
  lemma {:induction false} ClosedIsFixed(links: Links, depth: nat, node: Node, base: Path)
    requires Closed(node)
    ensures Bundle(links, depth, node, base) == Done(node)
    decreases node
  {
    match node {
      case Text(_) =>
      case Other(_) =>
      case Array(items) => ClosedItemsAreFixed(links, depth, items, base);
      case Object(fields) => ClosedFieldsAreFixed(links, depth, fields, base);
    }
  }

  lemma {:induction false} ClosedItemsAreFixed(links: Links, depth: nat, items: Nodes, base: Path)
    requires ItemsClosed(items)
    ensures BundleItems(links, depth, items, base) == Done(items)
    decreases items
  {
    if items.Nodes? {
      ClosedIsFixed(links, depth, items.head, base);
      ClosedItemsAreFixed(links, depth, items.tail, base);
    }
  }

  lemma {:induction false} ClosedFieldsAreFixed(links: Links, depth: nat, fields: Fields, base: Path)
    requires FieldsClosed(fields)
    ensures BundleFields(links, depth, fields, base) == Done(fields)
    decreases fields
  {
    if fields.Field? {
      ClosedIsFixed(links, depth, fields.value, base);
      ClosedFieldsAreFixed(links, depth, fields.rest, base);
    }
  }

  predicate IsPath(node: Node) { node.Text? && !("#" <= node.text) }

  /** Following references from the node ends at a text that would read as an external reference. */
  predicate LeadsToText(links: Links, depth: nat, node: Node, base: Path)
    decreases depth
  {
    var ref := External(node);
    if ref.None? then IsPath(node)
    else
      var target := links(base, ref.value);
      target.Some? && depth > 0 && LeadsToText(links, depth - 1, target.value.node, target.value.base)
  }

  /** An object whose only field is `$ref`, holding not a text but a reference that leads to one. */
  predicate Forges(links: Links, depth: nat, fields: Fields, base: Path) {
    fields.Field? && fields.key == "$ref" && fields.rest.NoFields? && LeadsToText(links, depth, fields.value, base)
  }

  /** No such object is met on the way. */
  predicate Proper(links: Links, depth: nat, node: Node, base: Path)
    decreases depth, node
  {
    var ref := External(node);
    if ref.Some? then
      var target := links(base, ref.value);
      target.Some? && depth > 0 ==> Proper(links, depth - 1, target.value.node, target.value.base)
    else
      match node
      case Text(_) => true
      case Other(_) => true
      case Array(items) => ProperItems(links, depth, items, base)
      case Object(fields) => !Forges(links, depth, fields, base) && ProperFields(links, depth, fields, base)
  }

  predicate ProperItems(links: Links, depth: nat, items: Nodes, base: Path)
    decreases depth, items
  {
    items.Nodes? ==> Proper(links, depth, items.head, base) && ProperItems(links, depth, items.tail, base)
  }

  predicate ProperFields(links: Links, depth: nat, fields: Fields, base: Path)
    decreases depth, fields
  {
    fields.Field? ==> Proper(links, depth, fields.value, base) && ProperFields(links, depth, fields.rest, base)
  }

  lemma {:induction false} TextResults(links: Links, depth: nat, node: Node, base: Path)
    requires Bundle(links, depth, node, base).Done?
    ensures LeadsToText(links, depth, node, base) <==> IsPath(Bundle(links, depth, node, base).value)
    decreases depth
  {
    var ref := External(node);
    if ref.Some? {
      var target := links(base, ref.value).value;
      TextResults(links, depth - 1, target.node, target.base);
    }
  }

  lemma {:induction false} ObjectResults(links: Links, depth: nat, fields: Fields, base: Path)
    requires BundleFields(links, depth, fields, base).Done?
    ensures External(Object(BundleFields(links, depth, fields, base).value)).Some? <==> Forges(links, depth, fields, base)
  {
    if fields.Field? {
      TextResults(links, depth, fields.value, base);
      assert fields.rest.NoFields? <==> BundleFields(links, depth, fields.rest, base).value.NoFields?;
    }
  }

  /** The result has no external reference left exactly when none was spelled by another reference. */
  lemma {:induction false} ResultIsClosed(links: Links, depth: nat, node: Node, base: Path)
    requires Bundle(links, depth, node, base).Done?
    ensures Closed(Bundle(links, depth, node, base).value) <==> Proper(links, depth, node, base)
    decreases depth, node, 1
  {
    if External(node).Some? {
      TargetIsClosed(links, depth, node, base);
    } else {
      match node {
        case Text(_) =>
        case Other(_) =>
        case Array(items) => ItemsAreClosed(links, depth, items, base);
        case Object(fields) =>
          FieldsAreClosed(links, depth, fields, base);
          BundleOfObject(links, depth, node, base);
          ObjectResults(links, depth, fields, base);
      }
    }
  }

  lemma {:induction false} TargetIsClosed(links: Links, depth: nat, node: Node, base: Path)
    requires External(node).Some? && Bundle(links, depth, node, base).Done?
    ensures Closed(Bundle(links, depth, node, base).value) <==> Proper(links, depth, node, base)
    decreases depth, node, 0
  {
    var target := links(base, External(node).value).value;
    ResultIsClosed(links, depth - 1, target.node, target.base);
  }

  lemma {:induction false} ItemsAreClosed(links: Links, depth: nat, items: Nodes, base: Path)
    requires BundleItems(links, depth, items, base).Done?
    ensures ItemsClosed(BundleItems(links, depth, items, base).value) <==> ProperItems(links, depth, items, base)
    decreases depth, items
  {
    if items.Nodes? {
      ResultIsClosed(links, depth, items.head, base);
      ItemsAreClosed(links, depth, items.tail, base);
    }
  }

  lemma {:induction false} FieldsAreClosed(links: Links, depth: nat, fields: Fields, base: Path)
    requires BundleFields(links, depth, fields, base).Done?
    ensures FieldsClosed(BundleFields(links, depth, fields, base).value) <==> ProperFields(links, depth, fields, base)
    decreases depth, fields
  {
    if fields.Field? {
      ResultIsClosed(links, depth, fields.value, base);
      FieldsAreClosed(links, depth, fields.rest, base);
    }
  }

  /** Inlining the result of inlining, from any file and to any depth, changes nothing. */
  lemma {:induction false} InliningIsIdempotent(
      links: Links, depth: nat, node: Node, base: Path, again: nat, elsewhere: Path)
    requires Bundle(links, depth, node, base).Done? && Proper(links, depth, node, base)
    ensures Bundle(links, again, Bundle(links, depth, node, base).value, elsewhere) == Bundle(links, depth, node, base)
  {
    ResultIsClosed(links, depth, node, base);
    ClosedIsFixed(links, again, Bundle(links, depth, node, base).value, elsewhere);
  }

  function RefTo(value: Node): Node {
    Object(Field("$ref", value, NoFields))
  }

  /** A reference in the place of a reference's text: the result is a new external reference. */
  lemma {:induction false} ForgedReferenceRemains(links: Links, base: Path, ref: string, text: string, path: Path)
    requires !("#" <= ref) && !("#" <= text)
    requires links(base, ref) == Some(Place(Text(text), path))
    ensures Bundle(links, 1, RefTo(RefTo(Text(ref))), base) == Done(RefTo(Text(text)))
    ensures External(RefTo(Text(text))) == Some(text)
  {
    var inner := RefTo(Text(ref));
    assert External(inner) == Some(ref) && External(RefTo(inner)) == None;
    assert Bundle(links, 1, inner, base) == Done(Text(text));
    assert BundleFields(links, 1, NoFields, base) == Done(NoFields);
    assert BundleFields(links, 1, Field("$ref", inner, NoFields), base) == Done(Field("$ref", Text(text), NoFields));
  }

  // ---- The result means the same ----------------------------------------------------------------------

  datatype Located = Located(depth: nat, place: Place)

  /** Looking up keys in the original documents, following a reference wherever one is met. */
  function Follow(links: Links, depth: nat, node: Node, base: Path, keys: seq<string>): Option<Located>
    decreases depth, |keys|
  {
    var ref := External(node);
    if ref.Some? then
      var target := links(base, ref.value);
      if target.None? || depth == 0 then None
      else Follow(links, depth - 1, target.value.node, target.value.base, keys)
    else if keys == [] then Some(Located(depth, Place(node, base)))
    else if !node.Object? then None
    else
      var child := Fetch(node.fields, keys[0]);
      if child.None? then None else Follow(links, depth, child.value, base, keys[1..])
  }

  lemma {:induction false} FetchBundled(links: Links, depth: nat, fields: Fields, base: Path, key: string)
    requires BundleFields(links, depth, fields, base).Done?
    ensures var child := Fetch(fields, key);
            var found := Fetch(BundleFields(links, depth, fields, base).value, key);
            if child.None? then found.None?
            else Bundle(links, depth, child.value, base).Done? && found == Some(Bundle(links, depth, child.value, base).value)
    decreases fields
  {
    if fields.Field? && fields.key != key {
      FetchBundled(links, depth, fields.rest, base, key);
    }
  }

  /**
    * A plain look-up in the result finds exactly what a reference-following look-up finds in the
    * original documents, inlined; and nothing where that finds nothing.
    */
  lemma {:induction false} LookupsAgree(links: Links, depth: nat, node: Node, base: Path, keys: seq<string>)
    requires Bundle(links, depth, node, base).Done?
    ensures var found := Walk(Bundle(links, depth, node, base).value, keys);
            match Follow(links, depth, node, base, keys)
            case None => found.None?
            case Some(Located(d, Place(n, b))) => Bundle(links, d, n, b).Done? && found == Some(Bundle(links, d, n, b).value)
    decreases depth, |keys|
  {
    var ref := External(node);
    if ref.Some? {
      var target := links(base, ref.value).value;
      LookupsAgree(links, depth - 1, target.node, target.base, keys);
    } else if keys != [] && node.Object? {
      FetchBundled(links, depth, node.fields, base, keys[0]);
      var child := Fetch(node.fields, keys[0]);
      if child.Some? {
        LookupsAgree(links, depth, child.value, base, keys[1..]);
      }
    }
  }

  function Keys(fields: Fields): seq<string> { if fields.NoFields? then [] else [fields.key] + Keys(fields.rest) }

  function Items(items: Nodes): seq<Node> { if items.NoNodes? then [] else [items.head] + Items(items.tail) }

  /** An inlined object keeps its keys and their order. */
  lemma {:induction false} KeysStay(links: Links, depth: nat, fields: Fields, base: Path)
    requires BundleFields(links, depth, fields, base).Done?
    ensures Keys(BundleFields(links, depth, fields, base).value) == Keys(fields)
    decreases fields
  {
    if fields.Field? {
      KeysStay(links, depth, fields.rest, base);
    }
  }

  /** An inlined array has its items, each inlined, in their places. */
  lemma {:induction false} ItemsStay(links: Links, depth: nat, items: Nodes, base: Path)
    requires BundleItems(links, depth, items, base).Done?
    ensures var result := Items(BundleItems(links, depth, items, base).value);
            |result| == |Items(items)| &&
            forall k | 0 <= k < |result| :: Bundle(links, depth, Items(items)[k], base) == Done(result[k])
    decreases items
  {
    if items.Nodes? {
      ItemsStay(links, depth, items.tail, base);
    }
  }

  // ---- The cache ------------------------------------------------------------------------------------------

  function AsOption<T>(r: Outcome<T>): Option<T> {
    if r.Done? then Some(r.value) else None
  }

  /** The bundler's run: documents are read once and then taken from the cache. None stands for a raised error. */
  class Bundler {
    const w: Repository
    var cache: map<Path, Node>

    /** Every cached document is the file's. */
    ghost predicate Agrees() reads this {
      forall path | path in cache :: path in w.files && cache[path] == w.files[path]
    }

    constructor (w: Repository, input: Path)
      requires input in w.files
      ensures this.w == w && cache == map[input := w.files[input]] && Agrees()
    {
      this.w := w;
      cache := map[input := w.files[input]];
    }

    method Load(path: Path) returns (document: Option<Node>)
      requires Agrees()
      modifies `cache
      ensures Agrees()
      ensures document == if path in w.files then Some(w.files[path]) else None
      ensures cache == if path in w.files then old(cache)[path := w.files[path]] else old(cache)
    {
      if path in cache {
        return Some(cache[path]);
      }
      if path !in w.files {
        return None;
      }
      cache := cache[path := w.files[path]];
      return Some(w.files[path]);
    }

    /** The node a reference names, with the file it is in. */
    method Resolve(ref: string, base: Path) returns (place: Option<Place>)
      requires Agrees()
      modifies `cache
      ensures Agrees() && old(cache.Keys) <= cache.Keys
      ensures place == Target(w, base, ref)
    {
      if ref == "" { return None; }
      var hash := HashAt(ref);
      var path := w.locate(base, ref[..hash]);
      var document := Load(path);
      if document.None? { return None; }
      var pointer := if hash < |ref| then ref[hash + 1..] else "";
      var found := Walk(document.value, Decode(pointer));
      if found.None? { return None; }
      return Some(Place(found.value, path));
    }

    /** The result is that of the files, whatever the cache held of them. */
    method BundleNode(node: Node, base: Path, ghost depth: nat) returns (r: Option<Node>)
      requires Agrees() && !Bundle(LinksOf(w), depth, node, base).TooDeep?
      modifies `cache
      ensures Agrees() && old(cache.Keys) <= cache.Keys
      ensures r == AsOption(Bundle(LinksOf(w), depth, node, base))
      decreases depth, node
    {
      var ref := External(node);
      if ref.Some? {
        var target := Resolve(ref.value, base);
        assert target == LinksOf(w)(base, ref.value);
        if target.None? { return None; }
        r := BundleNode(target.value.node, target.value.base, depth - 1);
        return;
      }
      match node {
        case Text(_) => r := Some(node);
        case Other(_) => r := Some(node);
        case Array(items) =>
          var bundled := BundleEach(items, base, depth);
          r := if bundled.Some? then Some(Array(bundled.value)) else None;
        case Object(fields) =>
          var bundled := BundleValues(fields, base, depth);
          r := if bundled.Some? then Some(Object(bundled.value)) else None;
      }
    }

    method BundleEach(items: Nodes, base: Path, ghost depth: nat) returns (r: Option<Nodes>)
      requires Agrees() && !BundleItems(LinksOf(w), depth, items, base).TooDeep?
      modifies `cache
      ensures Agrees() && old(cache.Keys) <= cache.Keys
      ensures r == AsOption(BundleItems(LinksOf(w), depth, items, base))
      decreases depth, items
    {
      if items.NoNodes? { return Some(items); }
      var head := BundleNode(items.head, base, depth);
      if head.None? { return None; }
      var tail := BundleEach(items.tail, base, depth);
      r := if tail.Some? then Some(Nodes(head.value, tail.value)) else None;
    }

    method BundleValues(fields: Fields, base: Path, ghost depth: nat) returns (r: Option<Fields>)
      requires Agrees() && !BundleFields(LinksOf(w), depth, fields, base).TooDeep?
      modifies `cache
      ensures Agrees() && old(cache.Keys) <= cache.Keys
      ensures r == AsOption(BundleFields(LinksOf(w), depth, fields, base))
      decreases depth, fields
    {
      if fields.NoFields? { return Some(fields); }
      var value := BundleNode(fields.value, base, depth);
      if value.None? { return None; }
      var rest := BundleValues(fields.rest, base, depth);
      r := if rest.Some? then Some(Field(fields.key, value.value, rest.value)) else None;
    }
  }
}
