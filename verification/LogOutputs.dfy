/** Which sink each name's output goes to, and where the numbering of a name let go of stopped. */
module LogOutputs {

  import opened LogSink

  datatype Outputs = Outputs(sinks: map<string, Sink>, ends: map<string, nat>) {
    /** The number the name's next output byte gets. */
    function Position(name: string): nat {
      if name in sinks then sinks[name].End()
      else if name in ends then ends[name]
      else 0
    }

    /** A name has a sink or an end of one, never both, and no sink in the table is closed. */
    predicate Valid() {
      (forall n | n in sinks :: n !in ends && !sinks[n].closed)
    }
  }

  /** The name's sink, or a new one that goes on where the last of the name stopped. */
  function Output(o: Outputs, name: string): Outputs {
    if name in o.sinks then o
    else Outputs(o.sinks[name := NewSink(o.Position(name))], o.ends - {name})
  }

  /** Every name not kept is let go of. */
  function Keep(o: Outputs, names: seq<string>): Outputs {
    Outputs(map n | n in o.sinks && n in names :: o.sinks[n],
            map n | n in o.sinks.Keys + o.ends.Keys && (n in o.ends || n !in names) ::
              if n in o.sinks && n !in names then o.sinks[n].End() else o.ends[n])
  }

  /** However names come and go, the numbering of each goes on: neither step moves any name's next number. */
  lemma NumberingGoesOn(o: Outputs, name: string, names: seq<string>, n: string)
    requires o.Valid()
    ensures Output(o, name).Valid() && Output(o, name).Position(n) == o.Position(n) && name in Output(o, name).sinks
    ensures Keep(o, names).Valid() && Keep(o, names).Position(n) == o.Position(n)
    ensures n in Keep(o, names).sinks <==> n in o.sinks && n in names
  {
  }

  class Table {
    var sinks: map<string, Sink>
    var ends: map<string, nat>

    ghost function Value(): Outputs
      reads this
    {
      Outputs(sinks, ends)
    }

    method OutputOf(name: string)
      requires Value().Valid()
      modifies this
      ensures Value() == Output(old(Value()), name) && Value().Valid()
      ensures sinks.Keys == old(sinks).Keys + {name} && forall n | n in old(sinks) :: sinks[n] == old(sinks)[n]
      ensures name !in old(sinks) ==> sinks[name] == NewSink(old(Value()).Position(name))
      ensures forall n :: Value().Position(n) == old(Value()).Position(n)
    {
      forall n ensures Output(Value(), name).Position(n) == Value().Position(n) {
        NumberingGoesOn(Value(), name, [], n);
      }
      NumberingGoesOn(Value(), name, [], name);
      if name in sinks {
        return;
      }
      var start := if name in ends then ends[name] else 0;
      ends := ends - {name};
      sinks := sinks[name := NewSink(start)];
    }

    method KeepNames(names: seq<string>)
      requires Value().Valid()
      modifies this
      ensures Value() == Keep(old(Value()), names) && Value().Valid()
      ensures forall n :: n in sinks <==> n in old(sinks) && n in names
      ensures forall n | n in sinks :: sinks[n] == old(sinks)[n]
      ensures forall n :: Value().Position(n) == old(Value()).Position(n)
    {
      ghost var was := Value();
      var left := sinks.Keys;
      while left != {}
        invariant left <= was.sinks.Keys && Value().Valid()
        invariant sinks == map n | n in was.sinks && (n in names || n in left) :: was.sinks[n]
        invariant forall n | n in ends :: n in was.ends || (n in was.sinks && n !in names && n !in left)
        invariant forall n | n in was.ends :: n in ends && ends[n] == was.ends[n]
        invariant forall n | n in was.sinks && n !in names && n !in left :: n in ends && ends[n] == was.sinks[n].End()
        decreases left
      {
        var n :| n in left;
        left := left - {n};
        if n !in names {
          ends := ends[n := sinks[n].End()];
          sinks := sinks - {n};
        }
      }
      assert sinks == Keep(was, names).sinks;
      assert ends == Keep(was, names).ends;
      forall n ensures Value().Position(n) == was.Position(n) {
        NumberingGoesOn(was, "", names, n);
      }
    }
  }
}
