/** The image catalogue as the console edits it: add, remove, promote, each on the object it fetched,
    each written back whole or not at all. */
module Catalogue {

  datatype Entry = Entry(name: string, image: string, odooVersion: string, notes: string, flavor: string, isDefault: bool)

  ghost predicate NamesUnique(images: seq<Entry>) {
    forall i, j :: 0 <= i < j < |images| ==> images[i].name != images[j].name
  }

  ghost predicate OneDefault(images: seq<Entry>) {
    forall i, j :: 0 <= i < j < |images| ==> !(images[i].isDefault && images[j].isDefault)
  }

  ghost predicate Inv(images: seq<Entry>) { NamesUnique(images) && OneDefault(images) }

  // ------------------------------------------------------------------ the transitions

  function IndexOf(images: seq<Entry>, name: string): (i: int)
    ensures -1 <= i < |images|
    ensures i >= 0 ==> images[i].name == name
    ensures forall j :: 0 <= j < |images| && images[j].name == name ==> 0 <= i <= j
  {
    if images == [] then -1
    else
      var i := IndexOf(images[..|images| - 1], name);
      if i >= 0 then i else if images[|images| - 1].name == name then |images| - 1 else -1
  }

  function Add(images: seq<Entry>, e: Entry): seq<Entry> {
    var i := IndexOf(images, e.name);
    if i >= 0 then images[i := e.(isDefault := images[i].isDefault)]
    else images + [e.(isDefault := images == [])]
  }

  function Remove(images: seq<Entry>, name: string): seq<Entry> {
    if images == [] then []
    else Remove(images[..|images| - 1], name) + if images[|images| - 1].name == name then [] else [images[|images| - 1]]
  }

  /** A name that is not there is refused, and nothing is written. */
  function Promote(images: seq<Entry>, name: string): seq<Entry> {
    if IndexOf(images, name) < 0 then images
    else seq(|images|, i requires 0 <= i < |images| => images[i].(isDefault := images[i].name == name))
  }

  // ------------------------------------------------------------------ the handlers' loops

  method HandleAdd(fetched: seq<Entry>, e: Entry) returns (stored: seq<Entry>)
    ensures stored == Add(fetched, e)
  {
    var entry := e.(isDefault := |fetched| == 0);
    for i := 0 to |fetched|
      invariant forall j :: 0 <= j < i ==> fetched[j].name != entry.name
    {
      if fetched[i].name == entry.name {
        return fetched[i := entry.(isDefault := fetched[i].isDefault)];
      }
    }
    stored := fetched + [entry];
  }

  /** The filter writes over the list it is reading. It never overwrites an element before reading
      it: what remains to be read is at every point what was fetched. */
  method HandleRemove(images: array<Entry>, name: string) returns (kept: nat)
    modifies images
    ensures kept <= images.Length && images[..kept] == Remove(old(images[..]), name)
  {
    kept := 0;
    for i := 0 to images.Length
      invariant kept <= i
      invariant images[i..] == old(images[i..])
      invariant images[..kept] == Remove(old(images[..i]), name)
    {
      var e := images[i];
      assert e == old(images[i]);
      assert old(images[..i + 1])[..i] == old(images[..i]);
      if e.name != name {
        ghost var before := images[..kept];
        images[kept] := e;
        kept := kept + 1;
        assert images[..kept] == before + [e];
      }
      assert images[i + 1..] == old(images[i..])[1..];
    }
    assert old(images[..images.Length]) == old(images[..]);
  }

  method HandlePromote(images: array<Entry>, name: string) returns (found: bool)
    modifies images
    ensures found <==> IndexOf(old(images[..]), name) >= 0
    ensures found ==> images[..] == Promote(old(images[..]), name)
  {
    found := false;
    for i := 0 to images.Length
      invariant forall j :: 0 <= j < i ==> images[j] == old(images[j]).(isDefault := old(images[j]).name == name)
      invariant forall j :: i <= j < images.Length ==> images[j] == old(images[j])
      invariant found <==> exists j :: 0 <= j < i && old(images[j]).name == name
    {
      images[i] := images[i].(isDefault := images[i].name == name);
      if images[i].name == name { found := true; }
    }
  }

  // ------------------------------------------------------------------ runs

  datatype Op = AddOp(e: Entry) | RemoveOp(name: string) | PromoteOp(name: string)

  function Apply(images: seq<Entry>, op: Op): seq<Entry> {
    match op
    case AddOp(e) => Add(images, e)
    case RemoveOp(name) => Remove(images, name)
    case PromoteOp(name) => Promote(images, name)
  }

  function After(ops: seq<Op>): seq<Entry> {
    if ops == [] then [] else Apply(After(ops[..|ops| - 1]), ops[|ops| - 1])
  }

  /** A name is default in the catalogue. */
  ghost predicate DefaultIs(images: seq<Entry>, name: string) {
    exists i :: 0 <= i < |images| && images[i].name == name && images[i].isDefault
  }

  lemma {:induction false} RemoveKeeps(images: seq<Entry>, name: string)
    requires Inv(images)
    ensures Inv(Remove(images, name))
    ensures forall e :: e in Remove(images, name) <==> e in images && e.name != name
  {
    if images != [] {
      var n := |images| - 1;
      RemoveKeeps(images[..n], name);
      assert images == images[..n] + [images[n]];
      var before := Remove(images[..n], name);
      forall i | 0 <= i < |before|
        ensures before[i].name != images[n].name && !(before[i].isDefault && images[n].isDefault)
      {
        assert before[i] in images[..n];
      }
    }
  }

  /** Over any run of add, remove and promote from an empty catalogue, names stay unique and at most
      one entry is the default. */
  lemma {:induction false} RunKeepsInv(ops: seq<Op>)
    ensures Inv(After(ops))
  {
    if ops != [] {
      var before, op := After(ops[..|ops| - 1]), ops[|ops| - 1];
      RunKeepsInv(ops[..|ops| - 1]);
      if op.RemoveOp? { RemoveKeeps(before, op.name); }
    }
  }

  /** Adding to a catalogue that is not empty never moves the default; the first entry takes it. */
  lemma AddNeverMovesTheDefault(images: seq<Entry>, e: Entry, name: string)
    requires NamesUnique(images)
    ensures images != [] ==> (DefaultIs(Add(images, e), name) <==> DefaultIs(images, name))
    ensures images == [] ==> DefaultIs(Add(images, e), e.name)
  {
    var t := Add(images, e);
    if images == [] {
      assert t[0].isDefault;
    } else {
      forall i | 0 <= i < |images|
        ensures t[i].name == images[i].name && t[i].isDefault == images[i].isDefault
      {
      }
      if DefaultIs(images, name) {
        var i :| 0 <= i < |images| && images[i].name == name && images[i].isDefault;
        assert t[i].name == name && t[i].isDefault;
      }
      if DefaultIs(t, name) {
        var i :| 0 <= i < |t| && t[i].name == name && t[i].isDefault;
        assert i < |images|;
      }
    }
  }

  /** After adding, the entry of that name says what was given, whatever it said before, and keeps its flag;
      a new one is the default just when it is the first. The others are as they were, in their places. */
  lemma AddStoresWhatIsGiven(images: seq<Entry>, e: Entry)
    requires NamesUnique(images)
    ensures var t := Add(images, e);
            && NamesUnique(t)
            && (forall i :: 0 <= i < |images| ==>
                  t[i] == if images[i].name != e.name then images[i]
                          else Entry(e.name, e.image, e.odooVersion, e.notes, e.flavor, images[i].isDefault))
            && (|t| == |images| <==> exists i :: 0 <= i < |images| && images[i].name == e.name)
            && (|t| != |images| ==>
                  t == images + [Entry(e.name, e.image, e.odooVersion, e.notes, e.flavor, |images| == 0)])
  {
  }

  /** Promoting a name that is there leaves exactly that entry default, and changes nothing else. */
  lemma PromoteLeavesExactlyOne(images: seq<Entry>, name: string, other: string)
    requires IndexOf(images, name) >= 0
    ensures DefaultIs(Promote(images, name), other) <==> other == name
    ensures forall i :: 0 <= i < |images| ==>
              Promote(images, name)[i].(isDefault := images[i].isDefault) == images[i]
  {
    var t := Promote(images, name);
    assert t[IndexOf(images, name)].isDefault;
  }
}
