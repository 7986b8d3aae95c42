/** The observable store behind the sprint board: the roster and the filter
    text as fields, the three derived views as functions of them, and the
    three actions as methods that update the fields. */
module Sprint {
  import opened Roster

  class Store {
    /** The roster, in insertion order. */
    var devsList: seq<Developer>
    /** The text typed into the filter box. */
    var filter: string

    /** A new store holds the seed roster and an empty filter. */
    constructor ()
      ensures devsList == Seed() && filter == ""
    {
      devsList := Seed();
      filter := "";
    }

    /** Team story points: the total over the whole roster, whatever the filter. */
    function TotalSum(): (r: int)
      reads this
      ensures r == SumSp(devsList)
      ensures devsList == [] ==> r == 0
    {
      SumSp(devsList)
    }

    /** The top performer of the whole roster, whatever the filter. */
    function Top(): (r: Option<Developer>)
      reads this
      ensures r == TopPerformer(devsList)
      ensures r.Some? ==> r.value in devsList && r.value.name != ""
    {
      TopPerformer(devsList)
    }

    /** The rows the table shows. */
    function Filtered(): (r: seq<Developer>)
      reads this
      ensures r == FilteredDevelopers(devsList, filter)
      ensures filter == "" ==> r == devsList
      ensures forall d :: d in r ==> d in devsList && NameMatches(filter, d)
    {
      FilteredDevelopers(devsList, filter)
    }

    /** Empties the roster and keeps the filter. */
    method ClearList()
      modifies this
      ensures devsList == [] && filter == old(filter)
      ensures TotalSum() == 0 && Top() == None && Filtered() == []
    {
      devsList := [];
    }

    /** Pushes one developer onto the end of the roster. */
    method AddDeveloper(dev: Developer)
      modifies this
      ensures devsList == old(devsList) + [dev] && filter == old(filter)
      ensures TotalSum() == old(TotalSum()) + dev.sp
      ensures Filtered() == old(Filtered()) + if NameMatches(filter, dev) then [dev] else []
      ensures old(devsList) != [] && dev.sp < MaxSp(old(devsList)) ==> Top() == old(Top())
      ensures old(devsList) != [] && dev.sp == MaxSp(old(devsList)) ==>
        Top() == if old(Top()).Some? then old(Top()) else if dev.name != "" then Some(dev) else None
      ensures old(devsList) == [] || dev.sp > MaxSp(old(devsList)) ==>
        Top() == if dev.name != "" then Some(dev) else None
    {
      SumSpPush(devsList, dev);
      FilteredPush(devsList, filter, dev);
      TopPerformerPush(devsList, dev);
      devsList := devsList + [dev];
    }

    /** Replaces the filter text and keeps the roster. */
    method UpdateFilter(value: string)
      modifies this
      ensures filter == value && devsList == old(devsList)
      ensures TotalSum() == old(TotalSum()) && Top() == old(Top())
      ensures Filtered() == FilteredDevelopers(old(devsList), value)
    {
      filter := value;
    }
  }

  /** The board as it starts and after the first few clicks: the seed totals,
      typing "a" into the filter, then adding Ann with 12 points (who ties
      with Jack for the top score, so Jack stays on top). */
  method SeedScenario() returns (total: int, top: Option<Developer>, shown: seq<Developer>,
                                 totalAfterAdd: int, topAfterAdd: Option<Developer>)
    ensures total == 30 && top == Some(Developer("Jack", 12))
    ensures shown == [Developer("Jack", 12), Developer("Max", 10)]
    ensures totalAfterAdd == 42 && topAfterAdd == Some(Developer("Jack", 12))
  {
    var store := new Store();
    SeedViews();
    total, top := store.TotalSum(), store.Top();
    store.UpdateFilter("a");
    SeedFilteredByA();
    shown := store.Filtered();
    store.AddDeveloper(Developer("Ann", 12));
    SeedWithAnn();
    totalAfterAdd, topAfterAdd := store.TotalSum(), store.Top();
  }
}
