/**
 Decoded configuration values as the program holds them: tables and lists are objects that may be shared, and
 cloning copies them all the way down. A value is well formed when no object is below itself; what it stands for
 is the value of `Layers`, and its foot is every object it consists of.
 */
module Trees {
  import opened Layers

  /** A value in place, or a reference to a table or a list. */
  datatype Val = Leaf(atom: Any) | Ref(node: Node)

  class Node {
    const table: bool
    var entries: map<string, Val>
    var items: seq<Val>
    ghost var repr: set<Node>

    ghost function Children(): set<Val>
      reads this
    {
      entries.Values + set v | v in items
    }

    /** A tree, or a graph in which nothing is below itself: parts may be shared. */
    ghost predicate Valid()
      reads this, repr
      decreases repr
    {
      && this in repr
      && forall v :: v in Children() ==>
           match v
           case Leaf(atom) => !atom.Table? && !atom.List?
           case Ref(node) => node in repr && node.repr <= repr && this !in node.repr && node.Valid()
    }

    ghost function Entries(): map<string, Any>
      requires Valid()
      reads this, repr
      decreases repr, 0
    {
      map k | k in entries :: assert entries[k] in Children(); Meaning(entries[k])
    }

    ghost function Items(): seq<Any>
      requires Valid()
      reads this, repr
      decreases repr, 0
    {
      seq(|items|, i requires 0 <= i < |items| && Valid() reads this, repr =>
            assert items[i] in Children();
            Meaning(items[i]))
    }

    ghost function Value(): Any
      requires Valid()
      reads this, repr
      decreases repr, 1
    {
      if table then Table(Entries()) else List(Items())
    }

    constructor (table: bool, entries: map<string, Val>, items: seq<Val>)
      requires forall v :: v in entries.Values || v in items ==> Good(v)
      ensures Valid() && this.table == table && this.entries == entries && this.items == items
      ensures repr == {this} + Feet(Children())
    {
      this.table, this.entries, this.items := table, entries, items;
      this.repr := {this} + Feet(entries.Values + set v | v in items);
    }

    /** A copy that shares nothing with the original, whatever the original shares within itself. */
    method Clone() returns (clone: Node)
      requires Valid()
      ensures clone.Valid() && fresh(clone.repr)
      ensures clone.table == table && clone.Value() == Value()
      decreases repr, 1
    {
      if table {
        clone := CloneTable();
      } else {
        clone := CloneList();
      }
    }

    method CloneTable() returns (clone: Node)
      requires Valid() && table
      ensures clone.Valid() && fresh(clone.repr) && clone.table && clone.Entries() == Entries()
      decreases repr, 0
    {
      TableEntries(this);
      var copies := CloneFields(entries);
      ghost var feet := Feet(copies.Values);
      clone := new Node(true, copies, []);
      assert feet == Feet(copies.Values);
      assert clone.Children() == copies.Values;
      TableEntries(clone);
    }

    method CloneList() returns (clone: Node)
      requires Valid() && !table
      ensures clone.Valid() && fresh(clone.repr) && !clone.table && clone.Items() == Items()
      decreases repr, 0
    {
      var copies := CloneItems();
      clone := new Node(false, map[], copies);
      assert clone.Children() == set v | v in copies;
    }

    /** Sets one entry in place. */
    method Put(key: string, v: Val)
      requires Valid() && table && Good(v) && this !in Foot(v)
      modifies this
      ensures Valid() && entries == old(entries)[key := v] && repr == old(repr) + Foot(v)
      ensures Entries() == old(Entries())[key := Meaning(v)]
    {
      ghost var before := Entries();
      assert forall k :: k in entries ==> entries[k] in Children();
      entries := entries[key := v];
      repr := repr + Foot(v);
      assert forall w :: w in Children() ==> w == v || w in old(Children());
      assert Valid();
    }

    method CloneItems() returns (copies: seq<Val>)
      requires Valid()
      ensures |copies| == |items|
      ensures forall i :: 0 <= i < |copies| ==>
                Good(copies[i]) && fresh(Foot(copies[i])) && Meaning(copies[i]) == Items()[i]
      decreases repr, -1
    {
      copies := [];
      for n := 0 to |items|
        invariant |copies| == n
        invariant forall i :: 0 <= i < n ==>
                    Good(copies[i]) && fresh(Foot(copies[i])) && Meaning(copies[i]) == Items()[i]
      {
        assert items[n] in Children();
        var copy := CloneAny(items[n]);
        copies := copies + [copy];
      }
    }
  }

  method CloneAny(v: Val) returns (copy: Val)
    requires Good(v)
    ensures Good(copy) && fresh(Foot(copy)) && Meaning(copy) == Meaning(v)
    decreases Foot(v), 2
  {
    match v
    case Leaf(_) =>
      copy := v;
    case Ref(node) =>
      var clone := node.Clone();
      copy := Ref(clone);
  }

  /** The entries of a table are the fields it holds. */
  lemma TableEntries(n: Node)
    requires n.Valid()
    ensures AllGood(n.entries) && Feet(n.entries.Values) <= n.repr - {n} && n.Entries() == Meanings(n.entries)
  {
    assert forall k :: k in n.entries ==> n.entries[k] in n.Children();
  }

  ghost function NodeOf(v: Val): set<Node> { if v.Ref? then {v.node} else {} }

  /** The objects a value consists of. */
  ghost function Foot(v: Val): set<Node>
    reads NodeOf(v)
  {
    if v.Ref? then v.node.repr else {}
  }

  ghost function NodesOf(vs: set<Val>): set<Node> {
    set v | v in vs && v.Ref? :: v.node
  }

  ghost function Feet(vs: set<Val>): set<Node>
    reads NodesOf(vs)
  {
    set v, o | v in vs && v.Ref? && o in v.node.repr :: o
  }

  ghost predicate Good(v: Val)
    reads NodeOf(v), Foot(v)
  {
    match v
    case Leaf(atom) => !atom.Table? && !atom.List?
    case Ref(node) => node.Valid()
  }

  ghost function Meaning(v: Val): Any
    requires Good(v)
    reads NodeOf(v), Foot(v)
    decreases Foot(v), 2
  {
    match v
    case Leaf(atom) => atom
    case Ref(node) => node.Value()
  }

  // ----- fields that hold values -----

  ghost predicate AllGood(fields: map<string, Val>)
    reads NodesOf(fields.Values), Feet(fields.Values)
  {
    forall k :: k in fields ==> Good(fields[k])
  }

  ghost function Meanings(fields: map<string, Val>): map<string, Any>
    requires AllGood(fields)
    reads NodesOf(fields.Values), Feet(fields.Values)
  {
    map k | k in fields :: Meaning(fields[k])
  }

  method CloneFields(fields: map<string, Val>) returns (copies: map<string, Val>)
    requires AllGood(fields)
    ensures AllGood(copies) && fresh(Feet(copies.Values)) && Meanings(copies) == old(Meanings(fields))
    ensures AllGood(fields) && Meanings(fields) == old(Meanings(fields))
    decreases Feet(fields.Values), 4
  {
    copies := CloneEach(fields, Meanings(fields));
    forall n | n in Feet(copies.Values) ensures fresh(n) {
      var k :| k in copies && copies[k].Ref? && n in copies[k].node.repr;
      assert n in Foot(copies[k]);
    }
  }

  method CloneEach(fields: map<string, Val>, ghost meanings: map<string, Any>) returns (copies: map<string, Val>)
    requires AllGood(fields) && meanings == Meanings(fields)
    ensures copies.Keys == fields.Keys
    ensures forall k :: k in copies ==> Good(copies[k]) && fresh(Foot(copies[k])) && Meaning(copies[k]) == meanings[k]
    decreases Feet(fields.Values), 3
  {
    copies := map[];
    var pending := fields.Keys;
    while pending != {}
      invariant pending <= fields.Keys && copies.Keys == fields.Keys - pending
      invariant forall k :: k in copies ==>
                  Good(copies[k]) && fresh(Foot(copies[k])) && Meaning(copies[k]) == meanings[k]
    {
      var key :| key in pending;
      FieldOf(fields, key);
      var copy := CloneAny(fields[key]);
      copies := copies[key := copy];
      pending := pending - {key};
    }
  }

  lemma FieldOf(fields: map<string, Val>, key: string)
    requires AllGood(fields) && key in fields
    ensures Good(fields[key]) && Foot(fields[key]) <= Feet(fields.Values)
    ensures Meanings(fields)[key] == Meaning(fields[key])
  {
  }

  /** Assigning one field: the objects and the meaning of the fields behind it. */
  lemma FieldSet(fields: map<string, Val>, key: string, v: Val)
    requires AllGood(fields) && Good(v)
    ensures AllGood(fields[key := v]) && Feet(fields[key := v].Values) <= Feet(fields.Values) + Foot(v)
    ensures Meanings(fields[key := v]) == Meanings(fields)[key := Meaning(v)]
  {
    var after := fields[key := v];
    forall w | w in after.Values ensures w == v || w in fields.Values {
      var k :| k in after && after[k] == w;
    }
  }

  lemma FieldGone(fields: map<string, Val>, key: string)
    requires AllGood(fields)
    ensures AllGood(fields - {key}) && Feet((fields - {key}).Values) <= Feet(fields.Values)
    ensures Meanings(fields - {key}) == Meanings(fields) - {key}
  {
    var after := fields - {key};
    forall w | w in after.Values ensures w in fields.Values {
      var k :| k in after && after[k] == w;
    }
  }
}
