/** Service templates: the stock pre-check of a template and the ticket made from it. */
module Templates {
  import opened Sums
  import opened Inventory
  import opened Ledger
  import opened Database
  import LedgerMovements

  datatype DefaultPart = DefaultPart(part: PartId, qty: int, required: bool)

  datatype Template = Template(parts: seq<DefaultPart>, active: bool)

  // ---------------------------------------------------------------- editing templates

  datatype Edit =
    | NewTemplate
    | AddPart(template: nat, part: PartId, qty: int, required: bool)
    | UpdatePart(template: nat, index: nat, qty: int, required: bool)
    | RemovePart(template: nat, index: nat)
    | Duplicate(template: nat)
    | SetActive(template: nat, active: bool)

  predicate HasPart(t: Template, part: PartId)
  {
    exists i :: 0 <= i < |t.parts| && t.parts[i].part == part
  }

  /** An edit, or None when it is refused. */
  function EditTemplates(templates: seq<Template>, e: Edit): Option<seq<Template>>
  {
    match e
    case NewTemplate => Some(templates + [Template([], true)])
    case AddPart(t, part, qty, required) =>
      if t >= |templates| || qty <= 0 || HasPart(templates[t], part) then None
      else Some(templates[t := templates[t].(parts := templates[t].parts + [DefaultPart(part, qty, required)])])
    case UpdatePart(t, i, qty, required) =>
      if t >= |templates| || i >= |templates[t].parts| || qty <= 0 then None
      else
        var parts := templates[t].parts;
        Some(templates[t := templates[t].(parts := parts[i := parts[i].(qty := qty, required := required)])])
    case RemovePart(t, i) =>
      if t >= |templates| || i >= |templates[t].parts| then None
      else Some(templates[t := templates[t].(parts := templates[t].parts[..i] + templates[t].parts[i + 1..])])
    case Duplicate(t) =>
      if t >= |templates| then None else Some(templates + [templates[t].(active := false)])
    case SetActive(t, active) =>
      if t >= |templates| then None else Some(templates[t := templates[t].(active := active)])
  }

  function Edited(edits: seq<Edit>): seq<Template>
  {
    if edits == [] then []
    else
      var before := Edited(edits[..|edits| - 1]);
      match EditTemplates(before, edits[|edits| - 1])
      case Some(now) => now
      case None => before
  }

  predicate WellFormed(t: Template)
  {
    && (forall i, j :: 0 <= i < j < |t.parts| ==> t.parts[i].part != t.parts[j].part)
    && (forall i :: 0 <= i < |t.parts| ==> t.parts[i].qty >= 1)
  }

  lemma EditKeeps(templates: seq<Template>, e: Edit)
    requires forall t :: 0 <= t < |templates| ==> WellFormed(templates[t])
    ensures EditTemplates(templates, e).Some? ==>
      var now := EditTemplates(templates, e).value;
      forall t :: 0 <= t < |now| ==> WellFormed(now[t])
  {
  }

  /** Over every run of edits the parts of a template stay distinct, with positive quantities. */
  lemma {:induction false} TemplatesStayWellFormed(edits: seq<Edit>)
    ensures forall t :: 0 <= t < |Edited(edits)| ==> WellFormed(Edited(edits)[t])
  {
    if edits == [] {
    } else {
      TemplatesStayWellFormed(edits[..|edits| - 1]);
      EditKeeps(Edited(edits[..|edits| - 1]), edits[|edits| - 1]);
    }
  }

  lemma Removable(parts: seq<DefaultPart>, dp: DefaultPart)
    ensures (parts + [dp])[..|parts|] + (parts + [dp])[|parts| + 1..] == parts
  {
  }

  /** A part is added exactly to an existing template that does not list it, in a positive quantity.
      It comes last, and removing it again undoes the addition. */
  lemma RemovalUndoesAddition(templates: seq<Template>, t: nat, part: PartId, qty: int, required: bool)
    ensures EditTemplates(templates, AddPart(t, part, qty, required)).Some? <==>
      && t < |templates| && qty >= 1
      && forall i :: 0 <= i < |templates[t].parts| ==> templates[t].parts[i].part != part
    ensures EditTemplates(templates, AddPart(t, part, qty, required)).Some? ==>
      var now, n := EditTemplates(templates, AddPart(t, part, qty, required)).value, |templates[t].parts|;
      && |now| == |templates| && now[t].parts == templates[t].parts + [DefaultPart(part, qty, required)]
      && now[t].active == templates[t].active
      && EditTemplates(now, RemovePart(t, n)) == Some(templates)
  {
    if EditTemplates(templates, AddPart(t, part, qty, required)).Some? {
      var now := EditTemplates(templates, AddPart(t, part, qty, required)).value;
      Removable(templates[t].parts, DefaultPart(part, qty, required));
      assert now[t].(parts := templates[t].parts) == templates[t] && now[t := templates[t]] == templates;
    }
  }

  /** A copy of a template lists the same parts and is not active until it is made so. */
  lemma CopyIsInactive(templates: seq<Template>, t: nat)
    requires t < |templates|
    ensures
      var copied := EditTemplates(templates, Duplicate(t));
      && copied.Some? && |copied.value| == |templates| + 1 && copied.value[..|templates|] == templates
      && copied.value[|templates|] == Template(templates[t].parts, false)
      && EditTemplates(copied.value, SetActive(|templates|, true)) ==
         Some(templates + [Template(templates[t].parts, true)])
  {
    var copied := EditTemplates(templates, Duplicate(t)).value;
    assert copied[|templates| := Template(templates[t].parts, true)] ==
      templates + [Template(templates[t].parts, true)];
  }

  // ---------------------------------------------------------------- the pre-check

  datatype Missing = Missing(part: PartId, required: int, available: int)

  predicate Known(t: Template, parts: Parts)
  {
    forall i :: 0 <= i < |t.parts| ==> t.parts[i].part in parts
  }

  predicate ShortOf(dp: DefaultPart, parts: Parts)
    requires dp.part in parts
  {
    dp.required && parts[dp.part].stock < dp.qty
  }

  /** The required parts whose stock is too small, in order. */
  function MissingParts(t: seq<DefaultPart>, parts: Parts): seq<Missing>
    requires forall i :: 0 <= i < |t| ==> t[i].part in parts
  {
    if t == [] then []
    else
      var dp := t[|t| - 1];
      MissingParts(t[..|t| - 1], parts)
      + if ShortOf(dp, parts) then [Missing(dp.part, dp.qty, parts[dp.part].stock)] else []
  }

  method ValidateTemplateStock(t: Template, parts: Parts) returns (valid: bool, missing: seq<Missing>)
    requires Known(t, parts)
    ensures missing == MissingParts(t.parts, parts)
    ensures valid <==> forall i :: 0 <= i < |t.parts| ==> !ShortOf(t.parts[i], parts)
  {
    missing := [];
    for i := 0 to |t.parts|
      invariant missing == MissingParts(t.parts[..i], parts)
      invariant missing == [] <==> forall j :: 0 <= j < i ==> !ShortOf(t.parts[j], parts)
    {
      assert t.parts[..i + 1][..i] == t.parts[..i];
      var dp := t.parts[i];
      if dp.required && parts[dp.part].stock < dp.qty {
        missing := missing + [Missing(dp.part, dp.qty, parts[dp.part].stock)];
      }
    }
    assert t.parts[..|t.parts|] == t.parts;
    valid := missing == [];
  }

  /** What is reported missing: exactly the required parts short of stock, with what they need and
      what there is. */
  lemma {:induction false} MissingExactly(t: seq<DefaultPart>, parts: Parts, m: Missing)
    requires forall i :: 0 <= i < |t| ==> t[i].part in parts
    ensures m in MissingParts(t, parts) <==>
      exists i :: 0 <= i < |t| && t[i].required && t[i].qty > parts[t[i].part].stock
               && m == Missing(t[i].part, t[i].qty, parts[t[i].part].stock)
  {
    if t == [] {
    } else {
      var n := |t| - 1;
      MissingExactly(t[..n], parts, m);
      assert forall i :: 0 <= i < n ==> t[..n][i] == t[i];
      if m in MissingParts(t[..n], parts) {
        var i :| 0 <= i < n && t[..n][i].required && t[..n][i].qty > parts[t[..n][i].part].stock
          && m == Missing(t[..n][i].part, t[..n][i].qty, parts[t[..n][i].part].stock);
        assert t[i].required;
      } else if ShortOf(t[n], parts) && m == Missing(t[n].part, t[n].qty, parts[t[n].part].stock) {
        assert t[n].required;
      }
    }
  }

  // ---------------------------------------------------------------- tickets from templates

  /** Which parts a ticket consumes: the required ones, or the optional ones the user selected. */
  predicate Chosen(dp: DefaultPart, required: bool, selected: set<PartId>)
  {
    dp.required == required && (!required ==> dp.part in selected)
  }

  function ItemsOf(t: seq<DefaultPart>, required: bool, selected: set<PartId>): seq<CartItem>
  {
    if t == [] then []
    else
      var dp := t[|t| - 1];
      ItemsOf(t[..|t| - 1], required, selected)
      + if Chosen(dp, required, selected) then [CartItem(dp.part, dp.qty)] else []
  }

  /** Required parts first, then the selected optional ones, in one transaction. */
  function CreateTicket(d: Db, t: Template, ticket: nat, selected: set<PartId>): Outcome
  {
    if !t.active then Fail(TemplateInactive)
    else
      match ConsumeParts(d, ticket, ItemsOf(t.parts, true, selected), false)
      case Fail(e) => Fail(e)
      case Ok(now) => ConsumeParts(now, ticket, ItemsOf(t.parts, false, selected), false)
  }

  method FilterParts(t: seq<DefaultPart>, required: bool, selected: set<PartId>) returns (items: seq<CartItem>)
    ensures items == ItemsOf(t, required, selected)
  {
    items := [];
    for i := 0 to |t|
      invariant items == ItemsOf(t[..i], required, selected)
    {
      assert t[..i + 1][..i] == t[..i];
      if t[i].required == required && (required || t[i].part in selected) {
        items := items + [CartItem(t[i].part, t[i].qty)];
      }
    }
    assert t[..|t|] == t;
  }

  method CreateTicketFromTemplate(tables: Tables, t: Template, ticket: nat, selected: set<PartId>) returns (r: Result)
    modifies tables
    ensures Reports(CreateTicket(old(tables.View()), t, ticket, selected), old(tables.View()), tables.View(), r)
  {
    if !t.active {
      return Failed(TemplateInactive);
    }
    var savedParts, savedUsages := tables.parts, tables.usages;
    var required := FilterParts(t.parts, true, selected);
    r := tables.ConsumePartsAtomically(ticket, required, false);
    if r == Done {
      var optional := FilterParts(t.parts, false, selected);
      ghost var between := tables.View();
      r := tables.ConsumePartsAtomically(ticket, optional, false);
      if r != Done {
        assert tables.View() == between == old(tables.View()).(parts := between.parts, usages := between.usages);
        tables.parts, tables.usages := savedParts, savedUsages;
      }
    }
  }

  predicate IsItemOf(item: CartItem, dp: DefaultPart, required: bool, selected: set<PartId>)
  {
    Chosen(dp, required, selected) && item == CartItem(dp.part, dp.qty)
  }

  lemma {:induction false} ItemsComeFrom(t: seq<DefaultPart>, required: bool, selected: set<PartId>)
    ensures forall item :: item in ItemsOf(t, required, selected) ==>
      exists i :: 0 <= i < |t| && IsItemOf(item, t[i], required, selected)
    ensures forall i :: 0 <= i < |t| && Chosen(t[i], required, selected) ==>
      CartItem(t[i].part, t[i].qty) in ItemsOf(t, required, selected)
  {
    if t == [] {
    } else {
      var n := |t| - 1;
      ItemsComeFrom(t[..n], required, selected);
      assert forall i :: 0 <= i < n ==> t[..n][i] == t[i];
      forall item | item in ItemsOf(t, required, selected)
        ensures exists i :: 0 <= i < |t| && IsItemOf(item, t[i], required, selected)
      {
        if item in ItemsOf(t[..n], required, selected) {
          var i :| 0 <= i < n && IsItemOf(item, t[..n][i], required, selected);
          assert IsItemOf(item, t[i], required, selected);
        } else {
          assert IsItemOf(item, t[n], required, selected);
        }
      }
    }
  }

  lemma ItemSource(t: seq<DefaultPart>, required: bool, selected: set<PartId>, k: nat) returns (i: nat)
    requires k < |ItemsOf(t, required, selected)|
    ensures i < |t| && IsItemOf(ItemsOf(t, required, selected)[k], t[i], required, selected)
  {
    ItemsComeFrom(t, required, selected);
    var item := ItemsOf(t, required, selected)[k];
    assert item in ItemsOf(t, required, selected);
    i :| 0 <= i < |t| && IsItemOf(item, t[i], required, selected);
  }

  /** An item of the first default parts does not name the next one. */
  lemma ItemsBefore(t: seq<DefaultPart>, n: nat, required: bool, selected: set<PartId>, k: nat)
    requires WellFormed(Template(t, true)) && n < |t| && k < |ItemsOf(t[..n], required, selected)|
    ensures ItemsOf(t[..n], required, selected)[k].part != t[n].part
  {
    var i := ItemSource(t[..n], required, selected, k);
    assert t[..n][i] == t[i];
  }

  lemma {:induction false} ItemsDistinct(t: seq<DefaultPart>, required: bool, selected: set<PartId>)
    requires WellFormed(Template(t, true))
    ensures DistinctCart(ItemsOf(t, required, selected)) && PositiveCart(ItemsOf(t, required, selected))
  {
    if t == [] {
    } else {
      var n := |t| - 1;
      ItemsDistinct(t[..n], required, selected);
      forall k: nat | k < |ItemsOf(t[..n], required, selected)|
        ensures ItemsOf(t[..n], required, selected)[k].part != t[n].part
      {
        ItemsBefore(t, n, required, selected, k);
      }
    }
  }

  predicate Enough(parts: Parts, items: seq<CartItem>)
  {
    forall i :: 0 <= i < |items| ==> items[i].part in parts && items[i].qty <= parts[items[i].part].stock
  }

  /** The items of a well-formed template name its chosen parts, each once. */
  lemma ItemsOfTemplate(t: Template, parts: Parts, required: bool, selected: set<PartId>)
    requires WellFormed(t) && Known(t, parts)
    ensures
      var items := ItemsOf(t.parts, required, selected);
      && DistinctCart(items) && PositiveCart(items)
      && (forall k :: 0 <= k < |items| ==> items[k].part in parts)
      && (Enough(parts, items) <==>
          forall i :: 0 <= i < |t.parts| && Chosen(t.parts[i], required, selected) ==>
            t.parts[i].qty <= parts[t.parts[i].part].stock)
  {
    var items := ItemsOf(t.parts, required, selected);
    ItemsDistinct(t.parts, required, selected);
    ItemsComeFrom(t.parts, required, selected);
    forall k: nat | k < |items|
      ensures exists i :: 0 <= i < |t.parts| && IsItemOf(items[k], t.parts[i], required, selected)
    {
      var i := ItemSource(t.parts, required, selected, k);
    }
    if Enough(parts, items) {
      forall i | 0 <= i < |t.parts| && Chosen(t.parts[i], required, selected)
        ensures t.parts[i].qty <= parts[t.parts[i].part].stock
      {
        assert CartItem(t.parts[i].part, t.parts[i].qty) in items;
      }
    }
  }

  /** Required and optional items have no part in common. */
  lemma ItemsApart(t: Template, selected: set<PartId>, j: nat, k: nat)
    requires WellFormed(t) && j < |ItemsOf(t.parts, true, selected)| && k < |ItemsOf(t.parts, false, selected)|
    ensures ItemsOf(t.parts, true, selected)[j].part != ItemsOf(t.parts, false, selected)[k].part
  {
    var a := ItemSource(t.parts, true, selected, j);
    var b := ItemSource(t.parts, false, selected, k);
    assert a != b;
  }

  /** Consuming items touches only their parts. */
  lemma {:induction false} ConsumeElsewhere(d: Db, ticket: nat, items: seq<CartItem>, p: PartId)
    requires ConsumeItems(d, ticket, items, false).Some? && p in d.parts
    requires forall i :: 0 <= i < |items| ==> items[i].part != p
    ensures p in ConsumeItems(d, ticket, items, false).value.parts
    ensures ConsumeItems(d, ticket, items, false).value.parts[p] == d.parts[p]
  {
    if items == [] {
    } else {
      ConsumeElsewhere(d, ticket, items[..|items| - 1], p);
    }
  }

  /** For distinct parts the item-by-item consumption succeeds exactly when the stock before it
      is enough for each item, whatever triggers are installed. */
  lemma {:induction false} ConsumeExactly(d: Db, ticket: nat, items: seq<CartItem>)
    requires DistinctCart(items) && forall i :: 0 <= i < |items| ==> items[i].part in d.parts
    ensures ConsumeItems(d, ticket, items, false).Some? <==> Enough(d.parts, items)
  {
    if items == [] {
    } else {
      var n := |items| - 1;
      ConsumeExactly(d, ticket, items[..n]);
      assert forall i :: 0 <= i < n ==> items[..n][i] == items[i];
      if ConsumeItems(d, ticket, items[..n], false).Some? {
        ConsumeElsewhere(d, ticket, items[..n], items[n].part);
      }
    }
  }

  /** The pre-check of a template is exact: it finds nothing missing exactly when consuming the
      required parts one after the other does not fail. */
  lemma PreCheckExact(d: Db, t: Template, ticket: nat, selected: set<PartId>)
    requires WellFormed(t) && Known(t, d.parts)
    ensures (forall i :: 0 <= i < |t.parts| ==> !ShortOf(t.parts[i], d.parts))
      <==> ConsumeParts(d, ticket, ItemsOf(t.parts, true, selected), false).Ok?
  {
    ItemsOfTemplate(t, d.parts, true, selected);
    ConsumeExactly(d, ticket, ItemsOf(t.parts, true, selected));
  }

  lemma SecondUseFails(d: Db, p: PartId, ticket: nat)
    requires p in d.parts && d.parts[p].stock == 1 && d.triggers.legacy
    ensures ConsumeItems(d, ticket, [CartItem(p, 1), CartItem(p, 1)], false) == None
  {
    var item := CartItem(p, 1);
    var once := InsertUsage(d, Usage(ticket, p, 1, false));
    assert once.Some? && once.value.parts[p].stock == 0;
    assert [item][..0] == [] && ConsumeItems(d, ticket, [], false) == Some(d);
    assert ConsumeItems(d, ticket, [item], false) == once;
    assert [item, item][..1] == [item];
  }

  lemma RepeatedItems(p: PartId)
    ensures
      var dp := DefaultPart(p, 1, true);
      ItemsOf([dp, dp], true, {}) == [CartItem(p, 1), CartItem(p, 1)]
  {
    var dp := DefaultPart(p, 1, true);
    assert [dp][..0] == [] && ItemsOf([dp], true, {}) == [CartItem(p, 1)];
    assert [dp, dp][..1] == [dp];
  }

  /** A part listed twice breaks the pre-check: it finds nothing missing, yet consuming fails. */
  lemma RepeatedPartBreaksPreCheck(d: Db, p: PartId, ticket: nat)
    requires p in d.parts && d.parts[p].stock == 1 && d.triggers.legacy
    ensures
      var dp := DefaultPart(p, 1, true);
      !ShortOf(dp, d.parts) && ConsumeParts(d, ticket, ItemsOf([dp, dp], true, {}), false).Fail?
  {
    RepeatedItems(p);
    SecondUseFails(d, p, ticket);
  }

  /** A ticket is created exactly when the template is active and the stock covers every required
      and every selected optional part; otherwise stock and ticket parts stay as they were. */
  lemma TicketCreatedExactly(d: Db, t: Template, ticket: nat, selected: set<PartId>)
    requires WellFormed(t) && Known(t, d.parts)
    ensures CreateTicket(d, t, ticket, selected).Ok? <==>
      t.active && forall i :: 0 <= i < |t.parts| && (t.parts[i].required || t.parts[i].part in selected) ==>
        t.parts[i].qty <= d.parts[t.parts[i].part].stock
  {
    var required, optional := ItemsOf(t.parts, true, selected), ItemsOf(t.parts, false, selected);
    ItemsOfTemplate(t, d.parts, true, selected);
    ItemsOfTemplate(t, d.parts, false, selected);
    ConsumeExactly(d, ticket, required);
    if ConsumeItems(d, ticket, required, false).Some? {
      var now := ConsumeItems(d, ticket, required, false).value;
      forall k: nat | k < |optional|
        ensures optional[k].part in now.parts && now.parts[optional[k].part] == d.parts[optional[k].part]
      {
        forall j: nat | j < |required|
          ensures required[j].part != optional[k].part
        {
          ItemsApart(t, selected, j, k);
        }
        ConsumeElsewhere(d, ticket, required, optional[k].part);
      }
      ConsumeExactly(now, ticket, optional);
    }
  }

  /** A ticket part of the template that was chosen: required, or selected. */
  predicate Picked(dp: DefaultPart, selected: set<PartId>)
  {
    dp.required || dp.part in selected
  }

  lemma UsesRecorded(d: Db, ticket: nat, items: seq<CartItem>)
    requires ConsumeParts(d, ticket, items, false).Ok?
    ensures
      var now := ConsumeParts(d, ticket, items, false).db;
      && now == d.(parts := now.parts, usages := now.usages) && |now.usages| == |d.usages| + |items|
      && now.usages[..|d.usages|] == d.usages
      && (forall i :: 0 <= i < |items| ==>
          now.usages[|d.usages| + i] == Some(Usage(ticket, items[i].part, items[i].qty, false)))
  {
    LedgerMovements.ConsumptionRecorded(d, ticket, items, false);
  }

  /** Item `k` of a created ticket: the required ones first. */
  function ItemAt(t: Template, selected: set<PartId>, k: nat): CartItem
    requires k < |ItemsOf(t.parts, true, selected)| + |ItemsOf(t.parts, false, selected)|
  {
    var required := ItemsOf(t.parts, true, selected);
    if k < |required| then required[k] else ItemsOf(t.parts, false, selected)[k - |required|]
  }

  lemma TicketRows(d: Db, t: Template, ticket: nat, selected: set<PartId>)
    requires CreateTicket(d, t, ticket, selected).Ok?
    ensures
      var now, n := CreateTicket(d, t, ticket, selected).db, |d.usages|;
      var count := |ItemsOf(t.parts, true, selected)| + |ItemsOf(t.parts, false, selected)|;
      && now == d.(parts := now.parts, usages := now.usages) && |now.usages| == n + count
      && now.usages[..n] == d.usages
      && forall k :: 0 <= k < count ==>
          now.usages[n + k] == Some(Usage(ticket, ItemAt(t, selected, k).part, ItemAt(t, selected, k).qty, false))
  {
    var required, optional := ItemsOf(t.parts, true, selected), ItemsOf(t.parts, false, selected);
    var between := ConsumeParts(d, ticket, required, false).db;
    var now := CreateTicket(d, t, ticket, selected).db;
    UsesRecorded(d, ticket, required);
    UsesRecorded(between, ticket, optional);
    forall k | 0 <= k < |required| + |optional|
      ensures now.usages[|d.usages| + k] ==
        Some(Usage(ticket, ItemAt(t, selected, k).part, ItemAt(t, selected, k).qty, false))
    {
      if k < |required| {
        assert now.usages[..|between.usages|][|d.usages| + k] == between.usages[|d.usages| + k];
      } else {
        assert now.usages[|between.usages| + (k - |required|)] == now.usages[|d.usages| + k];
      }
    }
    assert now.usages[..|d.usages|] == now.usages[..|between.usages|][..|d.usages|];
  }

  lemma ItemIsPicked(t: Template, selected: set<PartId>, k: nat) returns (i: nat)
    requires k < |ItemsOf(t.parts, true, selected)| + |ItemsOf(t.parts, false, selected)|
    ensures i < |t.parts| && Picked(t.parts[i], selected)
    ensures ItemAt(t, selected, k) == CartItem(t.parts[i].part, t.parts[i].qty)
  {
    var n := |ItemsOf(t.parts, true, selected)|;
    if k < n {
      i := ItemSource(t.parts, true, selected, k);
    } else {
      i := ItemSource(t.parts, false, selected, k - n);
    }
  }

  lemma PickedIsItem(t: Template, selected: set<PartId>, i: nat) returns (k: nat)
    requires i < |t.parts| && Picked(t.parts[i], selected)
    ensures k < |ItemsOf(t.parts, true, selected)| + |ItemsOf(t.parts, false, selected)|
    ensures ItemAt(t, selected, k) == CartItem(t.parts[i].part, t.parts[i].qty)
  {
    var required := ItemsOf(t.parts, true, selected);
    var item := CartItem(t.parts[i].part, t.parts[i].qty);
    ItemsComeFrom(t.parts, t.parts[i].required, selected);
    var j: nat :| j < |ItemsOf(t.parts, t.parts[i].required, selected)|
      && ItemsOf(t.parts, t.parts[i].required, selected)[j] == item;
    k := if t.parts[i].required then j else |required| + j;
  }

  lemma ItemsDiffer(t: Template, selected: set<PartId>, j: nat, k: nat)
    requires WellFormed(t) && j < k < |ItemsOf(t.parts, true, selected)| + |ItemsOf(t.parts, false, selected)|
    ensures ItemAt(t, selected, j).part != ItemAt(t, selected, k).part
  {
    var n := |ItemsOf(t.parts, true, selected)|;
    ItemsDistinct(t.parts, true, selected);
    ItemsDistinct(t.parts, false, selected);
    if j < n <= k {
      ItemsApart(t, selected, j, k - n);
    }
  }

  /** Some ticket part from the `n`-th on records the default part: its quantity, pending approval. */
  predicate RecordedFrom(usages: seq<Option<Usage>>, n: nat, ticket: nat, dp: DefaultPart)
  {
    exists k :: n <= k < |usages| && usages[k] == Some(Usage(ticket, dp.part, dp.qty, false))
  }

  /** Ticket part `u` records some default part that was picked. */
  predicate RecordsPicked(u: Option<Usage>, ticket: nat, t: Template, selected: set<PartId>)
  {
    exists i :: 0 <= i < |t.parts| && Picked(t.parts[i], selected)
             && u == Some(Usage(ticket, t.parts[i].part, t.parts[i].qty, false))
  }

  lemma PickedRecorded(d: Db, t: Template, ticket: nat, selected: set<PartId>, i: nat)
    requires CreateTicket(d, t, ticket, selected).Ok? && i < |t.parts| && Picked(t.parts[i], selected)
    ensures RecordedFrom(CreateTicket(d, t, ticket, selected).db.usages, |d.usages|, ticket, t.parts[i])
  {
    TicketRows(d, t, ticket, selected);
    var k := PickedIsItem(t, selected, i);
    assert CreateTicket(d, t, ticket, selected).db.usages[|d.usages| + k] ==
      Some(Usage(ticket, t.parts[i].part, t.parts[i].qty, false));
  }

  lemma RecordedIsPicked(d: Db, t: Template, ticket: nat, selected: set<PartId>, k: nat)
    requires CreateTicket(d, t, ticket, selected).Ok?
    requires |d.usages| <= k < |CreateTicket(d, t, ticket, selected).db.usages|
    ensures RecordsPicked(CreateTicket(d, t, ticket, selected).db.usages[k], ticket, t, selected)
  {
    TicketRows(d, t, ticket, selected);
    var i := ItemIsPicked(t, selected, k - |d.usages|);
    assert CreateTicket(d, t, ticket, selected).db.usages[|d.usages| + (k - |d.usages|)] ==
      Some(Usage(ticket, t.parts[i].part, t.parts[i].qty, false));
  }

  lemma RecordedOnce(d: Db, t: Template, ticket: nat, selected: set<PartId>, j: nat, k: nat)
    requires WellFormed(t) && CreateTicket(d, t, ticket, selected).Ok?
    requires |d.usages| <= j < k < |CreateTicket(d, t, ticket, selected).db.usages|
    ensures CreateTicket(d, t, ticket, selected).db.usages[j] != CreateTicket(d, t, ticket, selected).db.usages[k]
  {
    var now, n := CreateTicket(d, t, ticket, selected).db, |d.usages|;
    TicketRows(d, t, ticket, selected);
    ItemsDiffer(t, selected, j - n, k - n);
    assert now.usages[n + (j - n)] == now.usages[j] && now.usages[n + (k - n)] == now.usages[k];
  }

  /** The ticket parts that a created ticket adds are exactly the required and the selected parts of the
      template, each in its quantity and pending approval, and no two of them are alike. */
  lemma TicketRecordsParts(d: Db, t: Template, ticket: nat, selected: set<PartId>)
    requires WellFormed(t) && CreateTicket(d, t, ticket, selected).Ok?
    ensures
      var now, n := CreateTicket(d, t, ticket, selected).db, |d.usages|;
      && now == d.(parts := now.parts, usages := now.usages) && n <= |now.usages| && now.usages[..n] == d.usages
      && (forall i :: 0 <= i < |t.parts| && Picked(t.parts[i], selected) ==>
          RecordedFrom(now.usages, n, ticket, t.parts[i]))
      && (forall k :: n <= k < |now.usages| ==> RecordsPicked(now.usages[k], ticket, t, selected))
      && (forall j, k :: n <= j < k < |now.usages| ==> now.usages[j] != now.usages[k])
  {
    var now, n := CreateTicket(d, t, ticket, selected).db, |d.usages|;
    TicketRows(d, t, ticket, selected);
    forall i: nat | i < |t.parts| && Picked(t.parts[i], selected)
      ensures RecordedFrom(now.usages, n, ticket, t.parts[i])
    {
      PickedRecorded(d, t, ticket, selected, i);
    }
    forall k: nat | n <= k < |now.usages|
      ensures RecordsPicked(now.usages[k], ticket, t, selected)
    {
      RecordedIsPicked(d, t, ticket, selected, k);
    }
    forall j: nat, k: nat | n <= j < k < |now.usages|
      ensures now.usages[j] != now.usages[k]
    {
      RecordedOnce(d, t, ticket, selected, j, k);
    }
  }
}
