/** config/config.c: a flag machine over the YAML token stream, what it reads from every
    document, and when that is what a path lookup reads. */
module ConfigParse {
  import opened CText
  import opened TextLaws

  // ------------------------------------------------------------------ tokens

  datatype Token =
    | NO_TOKEN | KEY | VALUE | SCALAR(text: string) | BLOCK_MAPPING_START | BLOCK_END | STREAM_END | OTHER

  /** What `yaml_parser_scan` has still to deliver; after the end it delivers nothing. */
  datatype Stream = Empty | More(token: Token, rest: Stream) {
    function Next(): Token {
      if More? then token else NO_TOKEN
    }

    function Rest(): (r: Stream)
      ensures r.Length() <= Length() && (More? ==> r.Length() < Length())
    {
      if More? then rest else Empty
    }

    function Length(): nat {
      if More? then 1 + rest.Length() else 0
    }
  }

  // ------------------------------------------------------------------ config

  datatype Config = Config(socketPath: string, name: string, version: string, apiVersion: string,
                           protocol: string, address: string, edgecoreSock: string, httpPort: string,
                           enabled: bool, addr: string, database: string, username: string,
                           password: string, port: int, sslMode: string)

  const ZEROED := Config("", "", "", "", "", "", "", "", false, "", "", "", "", 0, "")

  datatype Field =
    | SocketPath
    | Name | Version | ApiVersion | Protocol | Address | EdgecoreSock | HttpPort
    | Enabled | Addr | DatabaseName | Username | Password | Port | SslMode

  predicate IsTrue(v: string) {
    SameIgnoringCase(v, "true") || v == "1"
  }

  /** One field takes a value, cut to the size of its buffer. */
  function Set(c: Config, f: Field, v: string): Config {
    match f
    case SocketPath => c.(socketPath := Cut(v, 256))
    case Name => c.(name := Cut(v, 64))
    case Version => c.(version := Cut(v, 32))
    case ApiVersion => c.(apiVersion := Cut(v, 32))
    case Protocol => c.(protocol := Cut(v, 32))
    case Address => c.(address := Cut(v, 128))
    case EdgecoreSock => c.(edgecoreSock := Cut(v, 256))
    case HttpPort => c.(httpPort := Cut(v, 16))
    case Enabled => c.(enabled := IsTrue(v))
    case Addr => c.(addr := Cut(v, 128))
    case DatabaseName => c.(database := Cut(v, 64))
    case Username => c.(username := Cut(v, 64))
    case Password => c.(password := Cut(v, 64))
    case Port => c.(port := Atoi(v))
    case SslMode => c.(sslMode := Cut(v, 16))
  }

  // ----------------------------------------------------------------- machine

  datatype Flags = Flags(grpcServer: bool, common: bool, database: bool, mysql: bool)

  const TOP := Flags(false, false, false, false)
  const IN_GRPC_SERVER := Flags(true, false, false, false)
  const IN_COMMON := Flags(false, true, false, false)
  const IN_DATABASE := Flags(false, false, true, false)
  const IN_MYSQL := Flags(false, false, true, true)

  /** At most one section is open, and mysql is open only inside database. */
  predicate OneSection(f: Flags) {
    f == TOP || f == IN_GRPC_SERVER || f == IN_COMMON || f == IN_DATABASE || f == IN_MYSQL
  }

  /** A mapping opens under `key`. */
  function Enter(f: Flags, key: string): (r: Flags)
    requires OneSection(f)
    ensures OneSection(r)
  {
    if key == "grpc_server" then IN_GRPC_SERVER
    else if key == "common" then IN_COMMON
    else if key == "database" then IN_DATABASE
    else if f.database && key == "mysql" then f.(mysql := true)
    else f
  }

  /** A block ends: the innermost flag goes. */
  function Leave(f: Flags): (r: Flags)
    requires OneSection(f)
    ensures OneSection(r)
  {
    if f.mysql then f.(mysql := false)
    else if f.database then f.(database := false)
    else if f.common then f.(common := false)
    else if f.grpcServer then f.(grpcServer := false)
    else f
  }

  /** The field a scalar under `key` goes to. */
  function FieldFor(f: Flags, key: string): Option<Field> {
    if f.grpcServer then
      if key == "socket_path" then Some(SocketPath) else None
    else if f.common then
      if key == "name" then Some(Name)
      else if key == "version" then Some(Version)
      else if key == "api_version" then Some(ApiVersion)
      else if key == "protocol" then Some(Protocol)
      else if key == "address" then Some(Address)
      else if key == "edgecore_sock" then Some(EdgecoreSock)
      else if key == "http_port" then Some(HttpPort)
      else None
    else if f.mysql then
      if key == "enabled" then Some(Enabled)
      else if key == "addr" then Some(Addr)
      else if key == "database" then Some(DatabaseName)
      else if key == "username" then Some(Username)
      else if key == "password" then Some(Password)
      else if key == "port" then Some(Port)
      else if key == "ssl_mode" then Some(SslMode)
      else None
    else None
  }

  function Store(c: Config, f: Flags, key: string, v: string): Config {
    if FieldFor(f, key).Some? then Set(c, FieldFor(f, key).value, v) else c
  }

  function SkipValues(s: Stream): (r: Stream)
    ensures r.Length() <= s.Length() && r.Next() != VALUE
  {
    if s.Next() == VALUE then SkipValues(s.Rest()) else s
  }

  /** The key buffer keeps 127 characters. */
  function KeyOf(text: string): string {
    Cut(text, 128)
  }

  /** What the machine returns from there; None when it never sees the end of the stream
      and spins. */
  function Machine(s: Stream, f: Flags, c: Config): Option<Config>
    requires OneSection(f)
    decreases s.Length()
  {
    match s
    case Empty => None
    case More(STREAM_END, _) => Some(c)
    case More(BLOCK_END, rest) => Machine(rest, Leave(f), c)
    case More(KEY, rest) =>
      if !rest.Next().SCALAR? then Machine(rest.Rest(), f, c)
      else
        var key, after := KeyOf(rest.token.text), SkipValues(rest.Rest());
        Machine(after.Rest(),
                if after.Next() == BLOCK_MAPPING_START then Enter(f, key) else f,
                if after.Next().SCALAR? then Store(c, f, key, after.Next().text) else c)
    case More(_, rest) => Machine(rest, f, c)
  }

  datatype Outcome = Unreadable | Spins | Parsed(config: Config)

  /** `config_parse`, with the token stream of the file, or None when it cannot be opened. */
  method Parse(file: Option<Stream>) returns (r: Outcome)
    ensures r == if file.None? then Unreadable
                 else match Machine(file.value, TOP, ZEROED) case None => Spins case Some(c) => Parsed(c)
  {
    if file.None? {
      return Unreadable;
    }
    var s, f, c := file.value, TOP, ZEROED;
    while s != Empty
      invariant OneSection(f) && Machine(s, f, c) == Machine(file.value, TOP, ZEROED)
      decreases s.Length()
    {
      var token := s.Next();
      s := s.Rest();
      if token == STREAM_END {
        return Parsed(c);
      }
      if token == KEY {
        token := s.Next();
        s := s.Rest();
        if !token.SCALAR? {
          continue;
        }
        var key := KeyOf(token.text);
        s := PassValues(s);
        token := s.Next();
        s := s.Rest();
        if token == BLOCK_MAPPING_START {
          f := Enter(f, key);
        } else if token.SCALAR? {
          c := Store(c, f, key, token.text);
        }
      } else if token == BLOCK_END {
        f := Leave(f);
      }
    }
    r := Spins;
  }

  /** The loop that skips the value indicators. */
  method PassValues(s: Stream) returns (r: Stream)
    ensures r == SkipValues(s)
  {
    r := s;
    while r.Next() == VALUE
      invariant SkipValues(r) == SkipValues(s)
      decreases r.Length()
    {
      r := r.Rest();
    }
  }

  /** The end of the stream comes where the loop looks for a token. A key takes the token behind it
      for its name, and the one behind that and any value indicators for its value. */
  predicate EndIsSeen(s: Stream)
    decreases s.Length()
  {
    match s
    case Empty => false
    case More(STREAM_END, _) => true
    case More(KEY, rest) =>
      if rest.Next().SCALAR? then EndIsSeen(SkipValues(rest.Rest()).Rest()) else EndIsSeen(rest.Rest())
    case More(_, rest) => EndIsSeen(rest)
  }

  predicate HasEnd(s: Stream) {
    s.More? && (s.token == STREAM_END || HasEnd(s.rest))
  }

  /** The parser spins on exactly the streams whose end it does not see, whatever is open and was
      read by then; among them are all that have no end, as after an error of the scanner. */
  lemma {:induction false} SpinsWithoutEnd(s: Stream, f: Flags, c: Config)
    requires OneSection(f)
    ensures Machine(s, f, c) == None <==> !EndIsSeen(s)
    ensures EndIsSeen(s) ==> HasEnd(s)
    decreases s.Length()
  {
    hide Enter, Leave, Store;
    match s
    case Empty =>
    case More(STREAM_END, _) =>
    case More(BLOCK_END, rest) => SpinsWithoutEnd(rest, Leave(f), c);
    case More(KEY, rest) =>
      if rest.Next().SCALAR? {
        var key, after := KeyOf(rest.token.text), SkipValues(rest.Rest());
        SpinsWithoutEnd(after.Rest(),
                        if after.Next() == BLOCK_MAPPING_START then Enter(f, key) else f,
                        if after.Next().SCALAR? then Store(c, f, key, after.Next().text) else c);
        EndBehind(rest.Rest());
      } else {
        SpinsWithoutEnd(rest.Rest(), f, c);
      }
    case More(_, rest) => SpinsWithoutEnd(rest, f, c);
  }

  lemma {:induction false} EndBehind(s: Stream)
    ensures HasEnd(SkipValues(s).Rest()) ==> HasEnd(s)
    decreases s.Length()
  {
    if s.Next() == VALUE {
      EndBehind(s.Rest());
    }
  }

  // --------------------------------------------------------------- documents

  /** A document, over whatever its scalars hold. `Dashes` is a block sequence at the
      indentation of its key, for which the scanner emits no start and no end. */
  datatype Node<T> =
    | Scalar(text: T) | Null | Mapping(entries: Entries<T>) | Sequence(items: Items<T>)
    | Dashes(first: Node<T>, more: Items<T>)

  datatype Entries<T> = NoEntries | Entry(key: string, value: Node<T>, rest: Entries<T>)

  datatype Items<T> = NoItems | Item(node: Node<T>, rest: Items<T>)

  /** The tokens of a node in front of a tail. */
  function Emit(n: Node<string>, tail: Stream): Stream {
    match n
    case Scalar(v) => More(SCALAR(v), tail)
    case Null => tail
    case Mapping(es) => More(BLOCK_MAPPING_START, EmitEntries(es, More(BLOCK_END, tail)))
    case Sequence(items) => More(OTHER, EmitItems(items, More(BLOCK_END, tail)))
    case Dashes(first, more) => More(OTHER, Emit(first, EmitItems(more, tail)))
  }

  function EmitEntries(es: Entries<string>, tail: Stream): Stream {
    match es
    case NoEntries => tail
    case Entry(k, v, rest) => More(KEY, More(SCALAR(k), More(VALUE, Emit(v, EmitEntries(rest, tail)))))
  }

  function EmitItems(items: Items<string>, tail: Stream): Stream {
    match items
    case NoItems => tail
    case Item(n, rest) => More(OTHER, Emit(n, EmitItems(rest, tail)))
  }

  /** The token stream of a document whose top level is a block mapping. */
  function Document(es: Entries<string>): Stream {
    More(OTHER, Emit(Mapping(es), More(STREAM_END, Empty)))
  }

  /** The last scalar at a path. */
  function LastAt<T>(n: Node<T>, path: seq<string>): Option<T> {
    if path == [] then if n.Scalar? then Some(n.text) else None
    else if n.Mapping? then LastIn(n.entries, path) else None
  }

  function LastIn<T>(es: Entries<T>, path: seq<string>): Option<T>
    requires path != []
  {
    match es
    case NoEntries => None
    case Entry(k, v, rest) =>
      var later := LastIn(rest, path);
      if later.Some? then later else if k == path[0] then LastAt(v, path[1..]) else None
  }

  /** The section a field is in, and its key there. */
  function SectionOf(f: Field): Flags {
    if f == SocketPath then IN_GRPC_SERVER
    else if f in {Name, Version, ApiVersion, Protocol, Address, EdgecoreSock, HttpPort} then IN_COMMON
    else IN_MYSQL
  }

  function KeyOfField(f: Field): string {
    match f
    case SocketPath => "socket_path"
    case Name => "name"
    case Version => "version"
    case ApiVersion => "api_version"
    case Protocol => "protocol"
    case Address => "address"
    case EdgecoreSock => "edgecore_sock"
    case HttpPort => "http_port"
    case Enabled => "enabled"
    case Addr => "addr"
    case DatabaseName => "database"
    case Username => "username"
    case Password => "password"
    case Port => "port"
    case SslMode => "ssl_mode"
  }

  function PathOf(f: Field): (r: seq<string>)
    ensures r != []
  {
    if SectionOf(f) == IN_GRPC_SERVER then ["grpc_server", KeyOfField(f)]
    else if SectionOf(f) == IN_COMMON then ["common", KeyOfField(f)]
    else ["database", "mysql", KeyOfField(f)]
  }

  /** The last scalar at the path of each field that has one. */
  function Lasts<T>(es: Entries<T>): Found<T> {
    map g: Field | LastIn(es, PathOf(g)).Some? :: LastIn(es, PathOf(g)).value
  }

  /** The scalars for the fields, where there are any. */
  type Found<T> = map<Field, T>

  function At(found: Found<string>, g: Field): string {
    if g in found then found[g] else ""
  }

  /** Each field with its scalar, or the empty text, cut to its buffer. */
  function Holding(found: Found<string>): Config {
    Config(Cut(At(found, SocketPath), 256),
           Cut(At(found, Name), 64), Cut(At(found, Version), 32), Cut(At(found, ApiVersion), 32),
           Cut(At(found, Protocol), 32), Cut(At(found, Address), 128),
           Cut(At(found, EdgecoreSock), 256), Cut(At(found, HttpPort), 16),
           IsTrue(At(found, Enabled)), Cut(At(found, Addr), 128), Cut(At(found, DatabaseName), 64),
           Cut(At(found, Username), 64), Cut(At(found, Password), 64), Atoi(At(found, Port)), Cut(At(found, SslMode), 16))
  }

  /** The configuration a document means: each field the last scalar at its path. */
  function Meant(es: Entries<string>): Config {
    Holding(Lasts(es))
  }

  // ------------------------------------------------- what the machine reads

  /** The flags after a part of the document, whether its last value was missing, so that the next
      token goes unseen, and the scalars that went to a field, of which later ones override earlier ones. */
  datatype Walked<T> = Walked(flags: Flags, swallow: bool, found: Found<T>)

  function FoundScalar<T>(f: Flags, k: string, text: T): Found<T> {
    if FieldFor(f, k).Some? then map[FieldFor(f, k).value := text] else map[]
  }

  /** A node that is not the value of a key, or whose first token has been seen. Its mappings open
      no section, and the end of a mapping or sequence closes one. */
  function WalkNode<T>(n: Node<T>, f: Flags): (w: Walked<T>)
    requires OneSection(f)
    ensures OneSection(w.flags) && !w.swallow
    decreases n, 2
  {
    match n
    case Scalar(_) => Walked(f, false, map[])
    case Null => Walked(f, false, map[])
    case Mapping(es) =>
      var w := WalkEntries(es, f, false);
      Walked(if w.swallow then w.flags else Leave(w.flags), false, w.found)
    case Sequence(items) =>
      var w := WalkItems(items, f);
      Walked(Leave(w.flags), false, w.found)
    case Dashes(first, more) =>
      var w := WalkNode(first, f);
      var w' := WalkItems(more, w.flags);
      Walked(w'.flags, false, w.found + w'.found)
  }

  /** The value of a key. */
  function WalkValue<T>(k: string, v: Node<T>, f: Flags): (w: Walked<T>)
    requires OneSection(f)
    ensures OneSection(w.flags)
    decreases v, 3
  {
    match v
    case Scalar(text) => Walked(f, false, FoundScalar(f, k, text))
    case Null => Walked(f, true, map[])
    case Mapping(_) => WalkNode(v, Enter(f, k))
    case _ => WalkNode(v, f)
  }

  /** Entries, the key of the first of which is unseen where `swallow` is set. */
  function WalkEntries<T>(es: Entries<T>, f: Flags, swallow: bool): (w: Walked<T>)
    requires OneSection(f)
    ensures OneSection(w.flags)
    decreases es, 1
  {
    match es
    case NoEntries => Walked(f, swallow, map[])
    case Entry(k, v, rest) =>
      var w := if swallow then WalkNode(v, f) else WalkValue(k, v, f);
      var w' := WalkEntries(rest, w.flags, w.swallow);
      w'.(found := w.found + w'.found)
  }

  function WalkItems<T>(items: Items<T>, f: Flags): (w: Walked<T>)
    requires OneSection(f)
    ensures OneSection(w.flags)
    decreases items, 1
  {
    match items
    case NoItems => Walked(f, false, map[])
    case Item(n, rest) =>
      var w := WalkNode(n, f);
      var w' := WalkItems(rest, w.flags);
      w'.(found := w.found + w'.found)
  }

  /** The scalar that ends up in a field, if any. */
  function Taken<T>(es: Entries<T>, g: Field): Option<T> {
    var found := WalkEntries(es, TOP, false).found;
    if g in found then Some(found[g]) else None
  }

  lemma SetHolds(found: Found<string>, f: Field, v: string)
    ensures Set(Holding(found), f, v) == Holding(found[f := v])
  {
    hide Cut, IsTrue, Atoi, At;
    forall g ensures At(found[f := v], g) == if g == f then v else At(found, g) {
      AtSet(found, f, v, g);
    }
    SetAgrees(Set(Holding(found), f, v), found[f := v], f, v, found);
  }

  lemma AtSet(found: Found<string>, f: Field, v: string, g: Field)
    ensures At(found[f := v], g) == if g == f then v else At(found, g)
  {
  }

  lemma SetAgrees(c: Config, after: Found<string>, f: Field, v: string, before: Found<string>)
    requires c == Set(Holding(before), f, v)
    requires forall g :: At(after, g) == if g == f then v else At(before, g)
    ensures c == Holding(after)
  {
    hide Cut, IsTrue, Atoi, At;
  }

  lemma StoreHolds(found: Found<string>, f: Flags, k: string, text: string)
    ensures Store(Holding(found), f, k, text) == Holding(found + FoundScalar(f, k, text))
  {
    hide Set, Holding, FieldFor;
    if FieldFor(f, k).Some? {
      SetHolds(found, FieldFor(f, k).value, text);
      assert found + FoundScalar(f, k, text) == found[FieldFor(f, k).value := text];
    } else {
      PlusNothing(found);
    }
  }

  lemma Together<T>(a: Found<T>, b: Found<T>, c: Found<T>)
    ensures a + b + c == a + (b + c)
  {
  }

  lemma PlusNothing<T>(a: Found<T>)
    ensures a + map[] == a == map[] + a
  {
  }

  // ------------------------------------------- the machine on every document

  /** A cut key is a known one only if it was before. */
  lemma CutKeyIsKey(f: Flags, key: string)
    requires OneSection(f)
    ensures FieldFor(f, KeyOf(key)) == FieldFor(f, key) && Enter(f, KeyOf(key)) == Enter(f, key)
  {
  }

  /** What the machine does at a key, by the first token of its value. */
  lemma MachineAtKey(k: string, x: Stream, f: Flags, c: Config)
    requires OneSection(f) && x.Next() != VALUE
    ensures Machine(More(KEY, More(SCALAR(k), More(VALUE, x))), f, c)
         == Machine(x.Rest(),
                    if x.Next() == BLOCK_MAPPING_START then Enter(f, k) else f,
                    if x.Next().SCALAR? then Store(c, f, k, x.Next().text) else c)
  {
    CutKeyIsKey(f, k);
    assert SkipValues(More(VALUE, x)) == x;
  }

  /** The machine when it may have to go past one token unseen. */
  function Resume(s: Stream, swallow: bool, f: Flags, found: Found<string>): Option<Config>
    requires OneSection(f)
  {
    Machine(if swallow then s.Rest() else s, f, Holding(found))
  }

  predicate AtBlockEnd(s: Stream) {
    s.Next() == BLOCK_END
  }

  lemma PastOther(t: Token, s: Stream, f: Flags, c: Config)
    requires OneSection(f) && t != KEY && t != BLOCK_END && t != STREAM_END
    ensures Machine(More(t, s), f, c) == Machine(s, f, c)
  {
  }

  lemma PastBlockEnd(s: Stream, swallow: bool, f: Flags, found: Found<string>)
    requires OneSection(f)
    ensures Resume(More(BLOCK_END, s), swallow, f, found)
         == Machine(s, if swallow then f else Leave(f), Holding(found))
  {
  }

  lemma FirstOfEntries(es: Entries<string>, tail: Stream)
    requires AtBlockEnd(tail)
    ensures EmitEntries(es, tail).Next() == KEY || EmitEntries(es, tail).Next() == BLOCK_END
  {
  }

  lemma {:induction false} MachineOnNode(n: Node<string>, tail: Stream, f: Flags, found: Found<string>)
    requires OneSection(f)
    ensures var w := WalkNode(n, f);
            Machine(Emit(n, tail), f, Holding(found)) == Machine(tail, w.flags, Holding(found + w.found))
    decreases n, 2
  {
    hide Holding, Machine;
    PlusNothing(found);
    match n
    case Scalar(v) => PastOther(SCALAR(v), tail, f, Holding(found));
    case Null =>
    case Mapping(es) =>
      var w := WalkEntries(es, f, false);
      PastOther(BLOCK_MAPPING_START, EmitEntries(es, More(BLOCK_END, tail)), f, Holding(found));
      MachineOnEntries(es, More(BLOCK_END, tail), f, false, found);
      PastBlockEnd(tail, w.swallow, w.flags, found + w.found);
    case Sequence(items) =>
      var w := WalkItems(items, f);
      PastOther(OTHER, EmitItems(items, More(BLOCK_END, tail)), f, Holding(found));
      MachineOnItems(items, More(BLOCK_END, tail), f, found);
      PastBlockEnd(tail, false, w.flags, found + w.found);
    case Dashes(first, more) => MachineOnDashes(first, more, tail, f, found);
  }

  lemma {:induction false} MachineOnDashes(first: Node<string>, more: Items<string>, tail: Stream, f: Flags, found: Found<string>)
    requires OneSection(f)
    ensures var w := WalkNode(Dashes(first, more), f);
            Machine(Emit(Dashes(first, more), tail), f, Holding(found)) == Machine(tail, w.flags, Holding(found + w.found))
    decreases Dashes(first, more), 1
  {
    hide Holding, Machine;
    var w := WalkNode(first, f);
    PastOther(OTHER, Emit(first, EmitItems(more, tail)), f, Holding(found));
    MachineOnNode(first, EmitItems(more, tail), f, found);
    MachineOnItems(more, tail, w.flags, found + w.found);
    Together(found, w.found, WalkItems(more, w.flags).found);
  }

  lemma {:induction false} MachineOnItems(items: Items<string>, tail: Stream, f: Flags, found: Found<string>)
    requires OneSection(f)
    ensures var w := WalkItems(items, f);
            Machine(EmitItems(items, tail), f, Holding(found)) == Machine(tail, w.flags, Holding(found + w.found))
    decreases items, 1
  {
    hide Holding, Machine;
    match items
    case NoItems => PlusNothing(found);
    case Item(n, rest) =>
      var w := WalkNode(n, f);
      PastOther(OTHER, Emit(n, EmitItems(rest, tail)), f, Holding(found));
      MachineOnNode(n, EmitItems(rest, tail), f, found);
      MachineOnItems(rest, tail, w.flags, found + w.found);
      Together(found, w.found, WalkItems(rest, w.flags).found);
  }

  lemma {:induction false} MachineOnValue(k: string, v: Node<string>, behind: Stream, f: Flags, found: Found<string>)
    requires OneSection(f) && (behind.Next() == KEY || behind.Next() == BLOCK_END)
    ensures var w := WalkValue(k, v, f);
            Machine(More(KEY, More(SCALAR(k), More(VALUE, Emit(v, behind)))), f, Holding(found))
            == Resume(behind, w.swallow, w.flags, found + w.found)
    decreases v, 3
  {
    hide Holding, Machine;
    PlusNothing(found);
    MachineAtKey(k, Emit(v, behind), f, Holding(found));
    match v
    case Scalar(text) => StoreHolds(found, f, k, text);
    case Null =>
    case Mapping(es) =>
      MachineOnNode(v, behind, Enter(f, k), found);
      PastOther(BLOCK_MAPPING_START, EmitEntries(es, More(BLOCK_END, behind)), Enter(f, k), Holding(found));
    case Sequence(items) =>
      MachineOnNode(v, behind, f, found);
      PastOther(OTHER, EmitItems(items, More(BLOCK_END, behind)), f, Holding(found));
    case Dashes(first, more) =>
      MachineOnNode(v, behind, f, found);
      PastOther(OTHER, Emit(first, EmitItems(more, behind)), f, Holding(found));
  }

  lemma {:induction false} MachineOnEntries(es: Entries<string>, tail: Stream, f: Flags, swallow: bool, found: Found<string>)
    requires OneSection(f) && AtBlockEnd(tail)
    ensures var w := WalkEntries(es, f, swallow);
            Resume(EmitEntries(es, tail), swallow, f, found) == Resume(tail, w.swallow, w.flags, found + w.found)
    decreases es, 1
  {
    hide Holding, Machine, Resume, WalkNode, WalkValue;
    match es
    case NoEntries => PlusNothing(found);
    case Entry(k, v, rest) =>
      MachineOnEntry(k, v, rest, tail, f, swallow, found);
      var w := if swallow then WalkNode(v, f) else WalkValue(k, v, f);
      MachineOnEntries(rest, tail, w.flags, w.swallow, found + w.found);
      Together(found, w.found, WalkEntries(rest, w.flags, w.swallow).found);
  }

  lemma {:induction false} MachineOnEntry(k: string, v: Node<string>, rest: Entries<string>, tail: Stream,
                                          f: Flags, swallow: bool, found: Found<string>)
    requires OneSection(f) && AtBlockEnd(tail)
    ensures var w := if swallow then WalkNode(v, f) else WalkValue(k, v, f);
            Resume(EmitEntries(Entry(k, v, rest), tail), swallow, f, found)
            == Resume(EmitEntries(rest, tail), w.swallow, w.flags, found + w.found)
    decreases v, 4
  {
    hide Holding, Machine, WalkNode, WalkValue, Emit;
    var behind := EmitEntries(rest, tail);
    FirstOfEntries(rest, tail);
    if swallow {
      PastOther(SCALAR(k), More(VALUE, Emit(v, behind)), f, Holding(found));
      PastOther(VALUE, Emit(v, behind), f, Holding(found));
      MachineOnNode(v, behind, f, found);
    } else {
      MachineOnValue(k, v, behind, f, found);
    }
  }

  /** On every document, whatever it nests or leaves out, the machine returns the configuration
      that holds what the walk finds. */
  lemma {:induction false} MachineReadsWalk(es: Entries<string>)
    ensures Machine(Document(es), TOP, ZEROED) == Some(Holding(WalkEntries(es, TOP, false).found))
  {
    var end := More(STREAM_END, Empty);
    var w := WalkEntries(es, TOP, false);
    NothingHeld();
    hide Holding, Machine, WalkEntries, EmitEntries;
    PastOther(OTHER, Emit(Mapping(es), end), TOP, ZEROED);
    MachineOnNode(Mapping(es), end, TOP, map[]);
    PlusNothing(w.found);
    AtEnd(WalkNode(Mapping(es), TOP).flags, Holding(w.found));
  }

  lemma AtEnd(f: Flags, c: Config)
    requires OneSection(f)
    ensures Machine(More(STREAM_END, Empty), f, c) == Some(c)
  {
  }

  lemma NothingHeld()
    ensures Holding(map[]) == ZEROED
  {
    ShortTexts();
  }

  // ------------------------------------------- when it reads a field right

  datatype Content = Text(text: string) | Truth(value: bool) | Number(number: int)

  function Get(c: Config, f: Field): Content {
    match f
    case SocketPath => Text(c.socketPath)
    case Name => Text(c.name)
    case Version => Text(c.version)
    case ApiVersion => Text(c.apiVersion)
    case Protocol => Text(c.protocol)
    case Address => Text(c.address)
    case EdgecoreSock => Text(c.edgecoreSock)
    case HttpPort => Text(c.httpPort)
    case Enabled => Truth(c.enabled)
    case Addr => Text(c.addr)
    case DatabaseName => Text(c.database)
    case Username => Text(c.username)
    case Password => Text(c.password)
    case Port => Number(c.port)
    case SslMode => Text(c.sslMode)
  }

  /** What a field holds for a scalar. */
  function ContentOf(g: Field, v: string): Content {
    Get(Holding(map[g := v]), g)
  }

  lemma GetHolding(found: Found<string>, g: Field)
    ensures Get(Holding(found), g) == ContentOf(g, At(found, g))
  {
    var one: Found<string> := map[g := At(found, g)];
    assert At(one, g) == At(found, g);
    GetDependsOn(one, found, g);
  }

  lemma GetDependsOn(a: Found<string>, b: Found<string>, g: Field)
    requires At(a, g) == At(b, g)
    ensures Get(Holding(a), g) == Get(Holding(b), g)
  {
    hide Cut, IsTrue, Atoi, At;
  }

  /** The machine gives the field what the document means. */
  predicate ReadsRight(es: Entries<string>, g: Field) {
    var c := Machine(Document(es), TOP, ZEROED);
    c.Some? && Get(c.value, g) == Get(Meant(es), g)
  }

  lemma RightByScalars(es: Entries<string>, g: Field)
    ensures ReadsRight(es, g)
       <==> (ContentOf(g, Taken(es, g).GetOr("")) == ContentOf(g, LastIn(es, PathOf(g)).GetOr("")))
  {
    hide Machine, Document, Holding, ContentOf, Get, WalkEntries, PathOf;
    MachineReadsWalk(es);
    GetHolding(WalkEntries(es, TOP, false).found, g);
    GetHolding(Lasts(es), g);
  }

  /** A layout is a document over the numbers of its scalars; `text` puts the scalars in. */
  function FillNode(n: Node<nat>, text: nat -> string): Node<string> {
    match n
    case Scalar(i) => Scalar(text(i))
    case Null => Null
    case Mapping(es) => Mapping(Fill(es, text))
    case Sequence(items) => Sequence(FillItems(items, text))
    case Dashes(first, more) => Dashes(FillNode(first, text), FillItems(more, text))
  }

  function Fill(es: Entries<nat>, text: nat -> string): Entries<string> {
    match es
    case NoEntries => NoEntries
    case Entry(k, v, rest) => Entry(k, FillNode(v, text), Fill(rest, text))
  }

  function FillItems(items: Items<nat>, text: nat -> string): Items<string> {
    match items
    case NoItems => NoItems
    case Item(n, rest) => Item(FillNode(n, text), FillItems(rest, text))
  }

  function FillFound(found: Found<nat>, text: nat -> string): Found<string> {
    map g | g in found :: text(found[g])
  }

  function FillWalked(w: Walked<nat>, text: nat -> string): Walked<string> {
    Walked(w.flags, w.swallow, FillFound(w.found, text))
  }

  lemma FillPlus(a: Found<nat>, b: Found<nat>, text: nat -> string)
    ensures FillFound(a + b, text) == FillFound(a, text) + FillFound(b, text)
    ensures FillFound(map[], text) == map[]
  {
  }

  lemma {:induction false} WalkFilledNode(n: Node<nat>, f: Flags, text: nat -> string)
    requires OneSection(f)
    ensures WalkNode(FillNode(n, text), f) == FillWalked(WalkNode(n, f), text)
    decreases n, 2
  {
    hide FillFound;
    FillPlus(map[], map[], text);
    match n
    case Scalar(_) =>
    case Null =>
    case Mapping(es) => WalkFilled(es, f, false, text);
    case Sequence(items) => WalkFilledItems(items, f, text);
    case Dashes(first, more) =>
      var w := WalkNode(first, f);
      WalkFilledNode(first, f, text);
      WalkFilledItems(more, w.flags, text);
      FillPlus(w.found, WalkItems(more, w.flags).found, text);
  }

  lemma {:induction false} WalkFilledItems(items: Items<nat>, f: Flags, text: nat -> string)
    requires OneSection(f)
    ensures WalkItems(FillItems(items, text), f) == FillWalked(WalkItems(items, f), text)
    decreases items, 1
  {
    hide FillFound, WalkNode;
    FillPlus(map[], map[], text);
    match items
    case NoItems =>
    case Item(n, rest) =>
      var w := WalkNode(n, f);
      WalkFilledNode(n, f, text);
      WalkFilledItems(rest, w.flags, text);
      FillPlus(w.found, WalkItems(rest, w.flags).found, text);
  }

  lemma {:induction false} WalkFilledValue(k: string, v: Node<nat>, f: Flags, text: nat -> string)
    requires OneSection(f)
    ensures WalkValue(k, FillNode(v, text), f) == FillWalked(WalkValue(k, v, f), text)
    decreases v, 3
  {
    match v
    case Scalar(i) =>
    case Null =>
    case Mapping(_) => WalkFilledNode(v, Enter(f, k), text);
    case _ => WalkFilledNode(v, f, text);
  }

  lemma {:induction false} WalkFilled(es: Entries<nat>, f: Flags, swallow: bool, text: nat -> string)
    requires OneSection(f)
    ensures WalkEntries(Fill(es, text), f, swallow) == FillWalked(WalkEntries(es, f, swallow), text)
    decreases es, 1
  {
    hide FillFound, WalkNode, WalkValue;
    FillPlus(map[], map[], text);
    match es
    case NoEntries =>
    case Entry(k, v, rest) =>
      var w := if swallow then WalkNode(v, f) else WalkValue(k, v, f);
      WalkFilledNode(v, f, text);
      WalkFilledValue(k, v, f, text);
      WalkFilled(rest, w.flags, w.swallow, text);
      FillPlus(w.found, WalkEntries(rest, w.flags, w.swallow).found, text);
  }

  function FillOption(o: Option<nat>, text: nat -> string): Option<string> {
    if o.Some? then Some(text(o.value)) else None
  }

  lemma {:induction false} LastFilled(es: Entries<nat>, path: seq<string>, text: nat -> string)
    requires path != []
    ensures LastIn(Fill(es, text), path) == FillOption(LastIn(es, path), text)
    decreases es
  {
    match es
    case NoEntries =>
    case Entry(k, v, rest) =>
      LastFilled(rest, path, text);
      if path[1..] != [] && v.Mapping? {
        LastFilled(v.entries, path[1..], text);
      }
  }

  lemma TakenFilled(es: Entries<nat>, g: Field, text: nat -> string)
    ensures Taken(Fill(es, text), g) == FillOption(Taken(es, g), text)
  {
    WalkFilled(es, TOP, false, text);
  }

  /** Every field tells these texts apart. */
  lemma ContentsDiffer(g: Field)
    ensures ContentOf(g, "1") != ContentOf(g, "0") && ContentOf(g, "1") != ContentOf(g, "")
  {
    hide Atoi, IsTrue, Cut;
    ShortTexts();
    var one, zero, none := Holding(map[g := "1"]), Holding(map[g := "0"]), Holding(map[g := ""]);
    assert Get(one, g) != Get(zero, g) && Get(one, g) != Get(none, g);
  }

  lemma ShortTexts()
    ensures Atoi("1") == 1 && Atoi("0") == 0 && Atoi("") == 0
    ensures IsTrue("1") && !IsTrue("0") && !IsTrue("")
  {
  }

  /** The machine reads a field right in every document of a layout exactly when the scalar that it
      takes is the last one at the path of the field. */
  lemma {:induction false} RightIffLastIsTaken(layout: Entries<nat>, g: Field)
    ensures (forall text: nat -> string :: ReadsRight(Fill(layout, text), g))
       <==> Taken(layout, g) == LastIn(layout, PathOf(g))
  {
    hide ReadsRight, Taken, LastIn, Fill, PathOf, ContentOf;
    var taken, last := Taken(layout, g), LastIn(layout, PathOf(g));
    if taken == last {
      forall text: nat -> string ensures ReadsRight(Fill(layout, text), g) {
        RightFilled(layout, g, text);
      }
    } else {
      var text := Apart(taken);
      RightFilled(layout, g, text);
      ContentsDiffer(g);
      assert !ReadsRight(Fill(layout, text), g);
    }
  }

  /** Scalars that tell one from all others, or are all alike. */
  function Apart(taken: Option<nat>): nat -> string {
    (i: nat) => if taken.None? || i == taken.value then "1" else "0"
  }

  lemma RightFilled(layout: Entries<nat>, g: Field, text: nat -> string)
    ensures ReadsRight(Fill(layout, text), g)
       <==> (ContentOf(g, FillOption(Taken(layout, g), text).GetOr(""))
             == ContentOf(g, FillOption(LastIn(layout, PathOf(g)), text).GetOr("")))
  {
    hide ReadsRight, Taken, LastIn, Fill, ContentOf;
    RightByScalars(Fill(layout, text), g);
    TakenFilled(layout, g, text);
    LastFilled(layout, PathOf(g), text);
  }

  // ------------------------------------------------------ the good documents

  predicate IsSection(key: string) {
    key == "grpc_server" || key == "common" || key == "database"
  }

  /** Only scalars. */
  predicate Flat<T>(es: Entries<T>) {
    match es
    case NoEntries => true
    case Entry(_, v, rest) => v.Scalar? && Flat(rest)
  }

  /** Scalars, and flat mappings under mysql. */
  predicate FlatDatabase<T>(es: Entries<T>) {
    match es
    case NoEntries => true
    case Entry(k, v, rest) =>
      (v.Scalar? || (k == "mysql" && v.Mapping? && Flat(v.entries))) && FlatDatabase(rest)
  }

  /** Anything, as long as no mapping stands under the name of a section. */
  predicate Inert<T>(n: Node<T>) {
    match n
    case Mapping(es) => InertEntries(es)
    case Sequence(items) => InertItems(items)
    case Dashes(first, more) => Inert(first) && InertItems(more)
    case _ => true
  }

  predicate InertEntries<T>(es: Entries<T>) {
    match es
    case NoEntries => true
    case Entry(k, v, rest) => (v.Mapping? ==> !IsSection(k)) && Inert(v) && InertEntries(rest)
  }

  predicate InertItems<T>(items: Items<T>) {
    match items
    case NoItems => true
    case Item(n, rest) => Inert(n) && InertItems(rest)
  }

  /** An entry of the top level: a known section is flat, another value is inert, and no
      value is missing. */
  predicate GoodEntry<T>(k: string, v: Node<T>) {
    match v
    case Null => false
    case Mapping(es) =>
      if k == "database" then FlatDatabase(es) else if IsSection(k) then Flat(es) else InertEntries(es)
    case _ => Inert(v)
  }

  predicate Good<T>(es: Entries<T>) {
    match es
    case NoEntries => true
    case Entry(k, v, rest) => GoodEntry(k, v) && Good(rest)
  }

  // -------------------------------------------------- what is taken from them

  lemma CommonHasKeys(k: string, g: Field)
    ensures FieldFor(IN_COMMON, k) == Some(g) <==> IN_COMMON == SectionOf(g) && k == KeyOfField(g)
  {
  }

  lemma MysqlHasKeys(k: string, g: Field)
    ensures FieldFor(IN_MYSQL, k) == Some(g) <==> IN_MYSQL == SectionOf(g) && k == KeyOfField(g)
  {
  }

  lemma OthersHaveKeys(f: Flags, k: string, g: Field)
    requires f == TOP || f == IN_DATABASE || f == IN_GRPC_SERVER
    ensures FieldFor(f, k) == Some(g) <==> f == SectionOf(g) && k == KeyOfField(g)
  {
  }

  lemma FieldsHaveKeys(f: Flags, k: string, g: Field)
    requires OneSection(f)
    ensures FieldFor(f, k) == Some(g) <==> f == SectionOf(g) && k == KeyOfField(g)
  {
    hide FieldFor, SectionOf, KeyOfField;
    if f == IN_COMMON {
      CommonHasKeys(k, g);
    } else if f == IN_MYSQL {
      MysqlHasKeys(k, g);
    } else {
      OthersHaveKeys(f, k, g);
    }
  }

  /** What was found for g is that scalar, or both are none. */
  predicate Agrees<T(==)>(found: Found<T>, g: Field, last: Option<T>) {
    if g in found then last == Some(found[g]) else last == None
  }

  lemma {:induction false} FlatWalk<T>(es: Entries<T>, f: Flags, g: Field)
    requires Flat(es) && OneSection(f)
    ensures var w := WalkEntries(es, f, false);
            && w.flags == f && !w.swallow
            && Agrees(w.found, g, if f == SectionOf(g) then LastIn(es, [KeyOfField(g)]) else None)
  {
    match es
    case NoEntries =>
    case Entry(k, v, rest) =>
      FieldsHaveKeys(f, k, g);
      FlatWalk(rest, f, g);
      assert [KeyOfField(g)][1..] == [];
      hide FieldFor, SectionOf, KeyOfField;
  }

  lemma MappingWalk<T>(k: string, es: Entries<T>, f: Flags)
    requires OneSection(f)
    ensures var w := WalkEntries(es, Enter(f, k), false);
            WalkValue(k, Mapping(es), f) == Walked(if w.swallow then w.flags else Leave(w.flags), false, w.found)
  {
  }

  lemma DatabaseEntryWalk<T>(k: string, v: Node<T>, g: Field)
    requires v.Scalar? || (k == "mysql" && v.Mapping? && Flat(v.entries))
    ensures var w := WalkValue(k, v, IN_DATABASE);
            && w.flags == IN_DATABASE && !w.swallow
            && Agrees(w.found, g,
                      if SectionOf(g) == IN_MYSQL && k == "mysql" then LastAt(v, [KeyOfField(g)]) else None)
  {
    hide FieldFor, SectionOf, KeyOfField;
    FieldsHaveKeys(IN_DATABASE, k, g);
    FieldsHaveSections(g);
    if v.Mapping? {
      MappingWalk(k, v.entries, IN_DATABASE);
      FlatWalk(v.entries, IN_MYSQL, g);
    }
  }

  lemma FieldsHaveSections(g: Field)
    ensures SectionOf(g) == IN_GRPC_SERVER || SectionOf(g) == IN_COMMON || SectionOf(g) == IN_MYSQL
  {
  }

  lemma {:induction false} DatabaseWalk<T>(es: Entries<T>, g: Field)
    requires FlatDatabase(es)
    ensures var w := WalkEntries(es, IN_DATABASE, false);
            && w.flags == IN_DATABASE && !w.swallow
            && Agrees(w.found, g, if SectionOf(g) == IN_MYSQL then LastIn(es, ["mysql", KeyOfField(g)]) else None)
  {
    hide WalkValue, SectionOf, KeyOfField;
    match es
    case NoEntries =>
    case Entry(k, v, rest) =>
      DatabaseEntryWalk(k, v, g);
      DatabaseWalk(rest, g);
      assert ["mysql", KeyOfField(g)][1..] == [KeyOfField(g)];
  }

  /** Outside the sections an inert node goes by without effect, even where missing values hide
      tokens from the machine. */
  lemma {:induction false} InertWalk<T>(n: Node<T>)
    requires Inert(n)
    ensures WalkNode(n, TOP) == Walked(TOP, false, map[])
    decreases n, 2
  {
    match n
    case Scalar(_) =>
    case Null =>
    case Mapping(es) => InertEntriesWalk(es, false);
    case Sequence(items) => InertItemsWalk(items);
    case Dashes(first, more) =>
      InertWalk(first);
      InertItemsWalk(more);
  }

  lemma {:induction false} InertItemsWalk<T>(items: Items<T>)
    requires InertItems(items)
    ensures WalkItems(items, TOP) == Walked(TOP, false, map[])
    decreases items, 1
  {
    match items
    case NoItems =>
    case Item(n, rest) =>
      InertWalk(n);
      InertItemsWalk(rest);
  }

  lemma {:induction false} InertEntriesWalk<T>(es: Entries<T>, swallow: bool)
    requires InertEntries(es)
    ensures var w := WalkEntries(es, TOP, swallow); w.flags == TOP && w.found == map[]
    decreases es, 1
  {
    match es
    case NoEntries =>
    case Entry(k, v, rest) =>
      InertWalk(v);
      InertEntriesWalk(rest, true);
      InertEntriesWalk(rest, false);
  }

  lemma EntryWalk<T>(k: string, v: Node<T>, g: Field)
    requires GoodEntry(k, v)
    ensures var w := WalkValue(k, v, TOP);
            && w.flags == TOP && !w.swallow
            && Agrees(w.found, g, if k == PathOf(g)[0] then LastAt(v, PathOf(g)[1..]) else None)
  {
    FieldsHaveSections(g);
    PathBySection(g);
    hide SectionOf, PathOf, KeyOfField;
    if !v.Mapping? {
      InertWalk(v);
    } else {
      MappingWalk(k, v.entries, TOP);
      if k == "database" {
        DatabaseWalk(v.entries, g);
      } else if IsSection(k) {
        FlatWalk(v.entries, Enter(TOP, k), g);
      } else {
        InertEntriesWalk(v.entries, false);
      }
    }
  }

  lemma PathBySection(g: Field)
    ensures SectionOf(g) == IN_GRPC_SERVER ==> PathOf(g)[0] == "grpc_server" && PathOf(g)[1..] == [KeyOfField(g)]
    ensures SectionOf(g) == IN_COMMON ==> PathOf(g)[0] == "common" && PathOf(g)[1..] == [KeyOfField(g)]
    ensures SectionOf(g) == IN_MYSQL ==> PathOf(g)[0] == "database" && PathOf(g)[1..] == ["mysql", KeyOfField(g)]
  {
  }

  /** From a good document every field gets the last scalar at its path. */
  lemma {:induction false} GoodWalk<T>(es: Entries<T>, g: Field)
    requires Good(es)
    ensures var w := WalkEntries(es, TOP, false);
            w.flags == TOP && !w.swallow && Agrees(w.found, g, LastIn(es, PathOf(g)))
  {
    hide WalkValue, PathOf;
    match es
    case NoEntries =>
    case Entry(k, v, rest) =>
      EntryWalk(k, v, g);
      GoodWalk(rest, g);
  }

  /** So every good document is read as a lookup reads it. */
  lemma {:induction false} MachineRefinesLookup(es: Entries<string>)
    requires Good(es)
    ensures Machine(Document(es), TOP, ZEROED) == Some(Meant(es))
  {
    hide PathOf, Holding, Machine, Document;
    MachineReadsWalk(es);
    var found := WalkEntries(es, TOP, false).found;
    forall g ensures (g in found <==> g in Lasts(es)) && (g in found ==> found[g] == Lasts(es)[g]) {
      GoodWalk(es, g);
    }
    assert found == Lasts(es);
  }

  // --------------------------------------------- the fields, one by one

  /** A text cut to a buffer, or nothing. */
  function Clipped(v: Option<string>, size: nat): string
    requires size > 0
  {
    if v.None? then "" else if |v.value| < size then v.value else v.value[..size - 1]
  }

  lemma CutMeans(v: Option<string>, size: nat)
    requires size > 0
    ensures Cut(v.GetOr(""), size) == Clipped(v, size)
  {
  }

  lemma LastsMean(es: Entries<string>, g: Field)
    ensures At(Lasts(es), g) == LastIn(es, PathOf(g)).GetOr("")
  {
  }

  lemma PathsOfCommon()
    ensures PathOf(SocketPath) == ["grpc_server", "socket_path"]
    ensures PathOf(Name) == ["common", "name"] && PathOf(Version) == ["common", "version"]
    ensures PathOf(ApiVersion) == ["common", "api_version"] && PathOf(Protocol) == ["common", "protocol"]
    ensures PathOf(Address) == ["common", "address"] && PathOf(EdgecoreSock) == ["common", "edgecore_sock"]
    ensures PathOf(HttpPort) == ["common", "http_port"]
  {
  }

  lemma PathsOfMysql()
    ensures PathOf(Enabled) == ["database", "mysql", "enabled"] && PathOf(Addr) == ["database", "mysql", "addr"]
    ensures PathOf(DatabaseName) == ["database", "mysql", "database"] && PathOf(Username) == ["database", "mysql", "username"]
    ensures PathOf(Password) == ["database", "mysql", "password"] && PathOf(Port) == ["database", "mysql", "port"]
    ensures PathOf(SslMode) == ["database", "mysql", "ssl_mode"]
  {
  }

  /** Every good document is parsed, and these are the texts: the last scalars at these paths, cut to
      these sizes. */
  lemma {:induction false} TextsOfGoodDocument(es: Entries<string>)
    requires Good(es)
    ensures Machine(Document(es), TOP, ZEROED).Some?
    ensures var c := Machine(Document(es), TOP, ZEROED).value;
            && c.socketPath == Clipped(LastIn(es, ["grpc_server", "socket_path"]), 256)
            && c.name == Clipped(LastIn(es, ["common", "name"]), 64)
            && c.version == Clipped(LastIn(es, ["common", "version"]), 32)
            && c.apiVersion == Clipped(LastIn(es, ["common", "api_version"]), 32)
            && c.protocol == Clipped(LastIn(es, ["common", "protocol"]), 32)
            && c.address == Clipped(LastIn(es, ["common", "address"]), 128)
            && c.edgecoreSock == Clipped(LastIn(es, ["common", "edgecore_sock"]), 256)
            && c.httpPort == Clipped(LastIn(es, ["common", "http_port"]), 16)
    ensures var c := Machine(Document(es), TOP, ZEROED).value;
            && c.addr == Clipped(LastIn(es, ["database", "mysql", "addr"]), 128)
            && c.database == Clipped(LastIn(es, ["database", "mysql", "database"]), 64)
            && c.username == Clipped(LastIn(es, ["database", "mysql", "username"]), 64)
            && c.password == Clipped(LastIn(es, ["database", "mysql", "password"]), 64)
            && c.sslMode == Clipped(LastIn(es, ["database", "mysql", "ssl_mode"]), 16)
  {
    MachineRefinesLookup(es);
    PathsOfCommon();
    PathsOfMysql();
    hide Machine, Document, PathOf, Cut, Clipped, At, Lasts, LastIn;
    forall g ensures At(Lasts(es), g) == LastIn(es, PathOf(g)).GetOr("") {
      LastsMean(es, g);
    }
    forall g, size: nat | size > 0
      ensures Cut(LastIn(es, PathOf(g)).GetOr(""), size) == Clipped(LastIn(es, PathOf(g)), size)
    {
      CutMeans(LastIn(es, PathOf(g)), size);
    }
  }

  /** It enables the database exactly where the last scalar at that path is 1, or true in letters of
      either case, and its port is the number that is printed there, or 0. */
  lemma {:induction false} NumbersOfGoodDocument(es: Entries<string>)
    requires Good(es)
    ensures Machine(Document(es), TOP, ZEROED).Some?
    ensures var c, v := Machine(Document(es), TOP, ZEROED).value, LastIn(es, ["database", "mysql", "enabled"]);
            c.enabled <==> v.Some? && (v.value == "1" || SaysTrue(v.value))
    ensures var c, v := Machine(Document(es), TOP, ZEROED).value, LastIn(es, ["database", "mysql", "port"]);
            && (v.None? ==> c.port == 0)
            && forall n :: -0x8000_0000 <= n <= 0x7fff_ffff && v == Some(Decimal(n)) ==> c.port == n
  {
    MachineRefinesLookup(es);
    PathsOfMysql();
    ShortTexts();
    LastsMean(es, Enabled);
    LastsMean(es, Port);
    TrueInAnyCase(LastIn(es, PathOf(Enabled)).GetOr(""));
    hide Machine, Document, PathOf, Cut, At, Lasts, LastIn, SameIgnoringCase, SaysTrue, Atoi, Decimal;
    forall n | -0x8000_0000 <= n <= 0x7fff_ffff && LastIn(es, PathOf(Port)) == Some(Decimal(n)) ensures Atoi(Decimal(n)) == n {
      AtoiUndoesDecimal(n);
    }
  }

  // ------------------------------------------------------ and from the others

  function Append<T>(a: Entries<T>, b: Entries<T>): Entries<T> {
    match a
    case NoEntries => b
    case Entry(k, v, rest) => Entry(k, v, Append(rest, b))
  }

  lemma {:induction false} WalkAppend<T>(a: Entries<T>, b: Entries<T>, f: Flags, swallow: bool)
    requires OneSection(f)
    ensures var w := WalkEntries(a, f, swallow);
            var w' := WalkEntries(b, w.flags, w.swallow);
            WalkEntries(Append(a, b), f, swallow) == w'.(found := w.found + w'.found)
    decreases a
  {
    hide WalkNode, WalkValue;
    match a
    case NoEntries => PlusNothing(WalkEntries(b, f, swallow).found);
    case Entry(k, v, rest) =>
      var w := if swallow then WalkNode(v, f) else WalkValue(k, v, f);
      WalkAppend(rest, b, w.flags, w.swallow);
      var w' := WalkEntries(rest, w.flags, w.swallow);
      Together(w.found, w'.found, WalkEntries(b, w'.flags, w'.swallow).found);
  }

  lemma {:induction false} FlatAppend<T>(a: Entries<T>, b: Entries<T>)
    ensures Flat(Append(a, b)) <==> Flat(a) && Flat(b)
    ensures Good(Append(a, b)) <==> Good(a) && Good(b)
  {
    match a
    case NoEntries =>
    case Entry(_, _, rest) => FlatAppend(rest, b);
  }

  /** Flat entries where no section with fields is open. */
  lemma {:induction false} IdleWalk<T>(es: Entries<T>, f: Flags, swallow: bool)
    requires Flat(es) && (f == TOP || f == IN_DATABASE)
    ensures var w := WalkEntries(es, f, swallow); w.flags == f && w.found == map[]
  {
    match es
    case NoEntries =>
    case Entry(_, _, rest) =>
      IdleWalk(rest, f, false);
  }

  lemma {:induction false} FlatFlags<T>(es: Entries<T>, f: Flags)
    requires Flat(es) && OneSection(f)
    ensures var w := WalkEntries(es, f, false); w.flags == f && !w.swallow
  {
    FlatWalk(es, f, Name);
  }

  lemma FirstEntry<T>(k: string, v: Node<T>, rest: Entries<T>, f: Flags)
    requires OneSection(f)
    ensures var w := WalkValue(k, v, f);
            var w' := WalkEntries(rest, w.flags, w.swallow);
            && WalkEntries(Entry(k, v, rest), f, false).found == w.found + w'.found
            && (w.found == map[] ==> WalkEntries(Entry(k, v, rest), f, false) == w')
            && (w'.found == map[] ==> WalkEntries(Entry(k, v, rest), f, false).found == w.found)
  {
    PlusNothing(WalkValue(k, v, f).found);
    PlusNothing(WalkEntries(rest, WalkValue(k, v, f).flags, WalkValue(k, v, f).swallow).found);
  }

  predicate AllScalars<T>(items: Items<T>) {
    match items
    case NoItems => true
    case Item(n, rest) => n.Scalar? && AllScalars(rest)
  }

  lemma {:induction false} ScalarsWalk<T>(items: Items<T>, f: Flags)
    requires AllScalars(items) && OneSection(f)
    ensures WalkItems(items, f) == Walked(f, false, map[])
  {
    match items
    case NoItems =>
    case Item(_, rest) => ScalarsWalk(rest, f);
  }

  /** The entries of a nested mapping; a sequence of scalars has none. */
  function Inner<T>(v: Node<T>): Entries<T> {
    if v.Mapping? then v.entries else NoEntries
  }

  /** A nested mapping or indented sequence ends the section that it stands in: the entries of
      the mapping count as entries of the section, and those behind it are lost. */
  lemma {:induction false} NestingEndsSection<T>(pre: Entries<T>, k: string, v: Node<T>, post: Entries<T>, f: Flags)
    requires OneSection(f) && f != TOP && Enter(f, k) == f && Flat(pre) && Flat(post)
    requires (v.Mapping? && Flat(v.entries)) || (v.Sequence? && AllScalars(v.items))
    ensures WalkEntries(Append(pre, Entry(k, v, post)), f, false).flags == Leave(f)
    ensures WalkEntries(Append(pre, Entry(k, v, post)), f, false).found
         == WalkEntries(Append(pre, Inner(v)), f, false).found
  {
    FlatFlags(pre, f);
    WalkAppend(pre, Entry(k, v, post), f, false);
    WalkAppend(pre, Inner(v), f, false);
    NestedWalk(k, v, f);
    IdleWalk(post, Leave(f), false);
    PlusNothing(WalkEntries(Inner(v), f, false).found);
  }

  lemma {:induction false} NestedWalk<T>(k: string, v: Node<T>, f: Flags)
    requires OneSection(f) && Enter(f, k) == f
    requires (v.Mapping? && Flat(v.entries)) || (v.Sequence? && AllScalars(v.items))
    ensures WalkValue(k, v, f) == Walked(Leave(f), false, WalkEntries(Inner(v), f, false).found)
  {
    if v.Mapping? {
      MappingWalk(k, v.entries, f);
      FlatFlags(v.entries, f);
    } else {
      ScalarsWalk(v.items, f);
    }
  }

  /** A sequence at the indentation of its key does not. */
  lemma {:induction false} DashesAreHarmless<T>(pre: Entries<T>, k: string, v: Node<T>, post: Entries<T>, f: Flags)
    requires OneSection(f) && Flat(pre) && Flat(post)
    requires v.Dashes? && v.first.Scalar? && AllScalars(v.more)
    ensures WalkEntries(Append(pre, Entry(k, v, post)), f, false) == WalkEntries(Append(pre, post), f, false)
  {
    FlatFlags(pre, f);
    WalkAppend(pre, Entry(k, v, post), f, false);
    WalkAppend(pre, post, f, false);
    ScalarsWalk(v.more, f);
    PlusNothing<T>(map[]);
    assert WalkNode(v.first, f) == Walked(f, false, map[]);
    assert WalkNode(Dashes(v.first, v.more), f) == Walked(f, false, map[]);
    FirstEntry(k, v, post, f);
  }

  /** For a whole document: the section is read as if the nested entries were its own and those
      behind them were not there. */
  lemma {:induction false} NestingMisread<T>(section: string, pre: Entries<T>, k: string, v: Node<T>, post: Entries<T>, g: Field)
    requires section == "grpc_server" || section == "common"
    requires !IsSection(k) && Flat(pre) && Flat(post)
    requires (v.Mapping? && Flat(v.entries)) || (v.Sequence? && AllScalars(v.items))
    ensures Taken(Entry(section, Mapping(Append(pre, Entry(k, v, post))), NoEntries), g)
         == if SectionOf(g) == Enter(TOP, section) then LastIn(Append(pre, Inner(v)), [KeyOfField(g)]) else None
  {
    hide SectionOf, KeyOfField;
    var f := Enter(TOP, section);
    NestingEndsSection(pre, k, v, post, f);
    MappingWalk(section, Append(pre, Entry(k, v, post)), TOP);
    FlatAppend(pre, Inner(v));
    FlatWalk(Append(pre, Inner(v)), f, g);
    FirstEntry(section, Mapping(Append(pre, Entry(k, v, post))), NoEntries, TOP);
  }

  /** A key without a value on the top level hides the key behind it, and with that the section. */
  lemma {:induction false} MissingValueHidesNext<T>(pre: Entries<T>, k: string, next: string, v: Node<T>, post: Entries<T>, g: Field)
    requires Good(pre) && Good(post) && Inert(v)
    ensures Taken(Append(pre, Entry(k, Null, Entry(next, v, post))), g) == LastIn(Append(pre, post), PathOf(g))
  {
    hide PathOf;
    GoodWalk(pre, g);
    FlatAppend(pre, post);
    GoodWalk(Append(pre, post), g);
    WalkAppend(pre, Entry(k, Null, Entry(next, v, post)), TOP, false);
    WalkAppend(pre, post, TOP, false);
    InertWalk(v);
    HiddenEntry(k, next, v, post);
  }

  lemma HiddenEntry<T>(k: string, next: string, v: Node<T>, post: Entries<T>)
    requires WalkNode(v, TOP) == Walked(TOP, false, map[])
    ensures WalkEntries(Entry(k, Null, Entry(next, v, post)), TOP, false) == WalkEntries(post, TOP, false)
  {
    PlusNothing(WalkEntries(post, TOP, false).found);
  }

  /** A key without a value at the end of a section keeps the section open: the entries of the next
      mapping count as its own. */
  lemma {:induction false} MissingValueKeepsSectionOpen<T>(section: string, pre: Entries<T>, k: string, next: string, inner: Entries<T>, g: Field)
    requires section == "grpc_server" || section == "common"
    requires !IsSection(next) && Flat(pre) && Flat(inner)
    ensures Taken(Entry(section, Mapping(Append(pre, Entry(k, Null, NoEntries))), Entry(next, Mapping(inner), NoEntries)), g)
         == if SectionOf(g) == Enter(TOP, section) then LastIn(Append(pre, inner), [KeyOfField(g)]) else None
  {
    hide SectionOf, KeyOfField;
    var f := Enter(TOP, section);
    var open := Append(pre, Entry(k, Null, NoEntries));
    FlatFlags(pre, f);
    WalkAppend(pre, Entry(k, Null, NoEntries), f, false);
    MappingWalk(section, open, TOP);
    FlatFlags(inner, f);
    MappingWalk(next, inner, f);
    WalkAppend(pre, inner, f, false);
    FlatAppend(pre, inner);
    FlatWalk(Append(pre, inner), f, g);
    FirstEntry<T>(k, Null, NoEntries, f);
    PlusNothing(WalkEntries(pre, f, false).found);
    FirstEntry(section, Mapping(open), Entry(next, Mapping(inner), NoEntries), TOP);
    FirstEntry(next, Mapping(inner), NoEntries, f);
  }
}
