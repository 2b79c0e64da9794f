/** An HDF5 file as the measurement store uses it: a tree of groups and datasets addressed
    by slash-separated paths, and string attributes (contrib/ecalhdf5/src/hdf5_helper.cpp). */
module Hdf5 {
  import opened Strings

  type Path = seq<Str>

  datatype Object =
    | Group
    | Payload(data: Str)
    | Text(text: Str)
    | Null
    | Table(cells: seq<int>, attributes: map<Str, Str>)

  datatype File = File(objects: map<Path, Object>, attributes: map<Str, Str>)

  const EMPTY := File(map[], map[])

  // ---------- Paths ----------

  function NoDots(p: Path): Path {
    if p == [] then [] else (if p[0] == "." then [] else [p[0]]) + NoDots(p[1..])
  }

  /** HDF5 ignores empty and `.` components. */
  function Resolve(url: Str): Path { NoDots(Split(url, '/')) }

  lemma {:induction false} NoDotsHasNone(p: Path)
    ensures "." !in NoDots(p)
    ensures forall n | n in p && n != "." :: n in NoDots(p)
    ensures forall n | n in NoDots(p) :: n in p
  {
    if p != [] {
      NoDotsHasNone(p[1..]);
    }
  }

  /** A path leads through the components between the slashes that are neither empty nor `.`. */
  lemma ResolvedParts(url: Str)
    ensures "." !in Resolve(url) && forall n | n in Resolve(url) :: n in Split(url, '/')
    ensures forall n | n in Split(url, '/') && n != "." :: n in Resolve(url)
  {
    NoDotsHasNone(Split(url, '/'));
  }

  predicate PlainName(n: Str) { n != [] && n != "." && '/' !in n }

  lemma {:induction false} NoDotsKeepsAll(p: Path)
    requires "." !in p
    ensures NoDots(p) == p
  {
    if p != [] {
      assert p[0] in p;
      NoDotsKeepsAll(p[1..]);
      assert p == [p[0]] + p[1..];
    }
  }

  lemma ResolveName(n: Str)
    requires PlainName(n)
    ensures Resolve(n) == [n]
  {
    SplitJoin([n], '/');
    NonEmptyKeepsAll([n]);
    assert Join([n], '/') == n;
    NoDotsKeepsAll([n]);
  }

  /** `v6::GetUrl` */
  function GetUrl(channel: Str, id: Str, attribute: Str): Str {
    ['/'] + channel + ['/'] + id + ['/'] + attribute
  }

  lemma ResolveUrl(channel: Str, id: Str, attribute: Str)
    requires PlainName(channel) && PlainName(id) && PlainName(attribute)
    ensures Resolve(GetUrl(channel, id, attribute)) == [channel, id, attribute]
  {
    var names: seq<Str> := [channel, id, attribute];
    var parts: seq<Str> := [[]] + names;
    assert names[1..] == [id, attribute] && names[1..][1..] == [attribute];
    assert Join(names[1..], '/') == id + ['/'] + attribute;
    assert Join(names, '/') == channel + ['/'] + (id + ['/'] + attribute);
    assert parts[1..] == names;
    assert Join(parts, '/') == [] + ['/'] + Join(names, '/');
    assert GetUrl(channel, id, attribute) == Join(parts, '/');
    SplitJoin(parts, '/');
    NonEmptyKeepsAll(names);
    assert NonEmpty(parts) == [] + NonEmpty(names);
    assert Split(GetUrl(channel, id, attribute), '/') == names;
    NoDotsKeepsAll(names);
  }

  // ---------- Objects ----------

  predicate IsGroup(f: File, p: Path) {
    p == [] || (p in f.objects && f.objects[p].Group?)
  }

  predicate CanCreate(f: File, p: Path) {
    p != [] && p !in f.objects && IsGroup(f, p[..|p| - 1])
  }

  /** Creating an object fails, and changes nothing, when the path is taken or its parent
      is no group. */
  function Put(f: File, p: Path, o: Object): File {
    if CanCreate(f, p) then f.(objects := f.objects[p := o]) else f
  }

  /** `OpenOrCreateGroup` */
  function EnsureGroup(f: File, p: Path): File { Put(f, p, Group) }

  function Open(f: File, url: Str): Option<Object> {
    var p := Resolve(url);
    if p in f.objects then Some(f.objects[p]) else None
  }

  /** `ListSubgroups`: the names of the links in a group. */
  function Links(f: File, group: Path): set<Str> {
    set p | p in f.objects && |p| == |group| + 1 && p[..|group|] == group :: p[|group|]
  }

  // ---------- Strings in attributes and datasets ----------

  const NUL: Str := [0 as char]

  /** A string attribute has at least one byte. */
  function StoredAttribute(value: Str): Str { if value == [] then NUL else value }

  /** `GetAttribute` takes a single NUL for the empty string. */
  function LoadedAttribute(stored: Str): Str { if stored == NUL then [] else stored }

  function SetAttribute(f: File, name: Str, value: Str): File {
    f.(attributes := f.attributes[name := StoredAttribute(value)])
  }

  function GetAttribute(attributes: map<Str, Str>, name: Str): Str {
    if name in attributes then LoadedAttribute(attributes[name]) else []
  }

  /** An attribute value is read back exactly when it is not a single NUL byte. */
  lemma AttributeRoundTripIff(value: Str)
    ensures LoadedAttribute(StoredAttribute(value)) == value <==> value != NUL
  {
  }

  /** `CreateStringEntryInRoot`: the empty string becomes a null entry. */
  function StringEntry(content: Str): Object { if content == [] then Null else Text(content) }

  /** `ReadStringEntryAsString` */
  function ReadStringEntry(f: File, url: Str): Str {
    match Open(f, url)
    case Some(Text(t)) => t
    case _ => []
  }
}
