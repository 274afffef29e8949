/**
 * The "Declared product" section of the EPD editor (`EpdProductSection`):
 * the declared product is created on first use with amount 1, and the
 * amount, flow and unit widgets write into it, mark the editor dirty and
 * announce flow and unit changes as editor events.
 */
module EpdProducts {
  import opened Wrappers

  datatype Unit = Unit(name: string)

  datatype FlowProperty = FlowProperty(name: string)

  /**
   * A flow with its reference flow property and the reference unit that
   * `getReferenceUnit()` derives from it.
   */
  datatype Flow = Flow(id: nat, referenceFlowProperty: Option<FlowProperty>, referenceUnit: Option<Unit>)

  /** An entry of the unit combo: a flow property and one of its units. */
  datatype UnitItem = UnitItem(property: Option<FlowProperty>, unit: Option<Unit>)

  class EpdProduct {
    var flow: Option<Flow>
    var property: Option<FlowProperty>
    var unit: Option<Unit>
    var amount: real

    /** `new EpdProduct()`: every reference null, the amount zero. */
    constructor ()
      ensures flow.None? && property.None? && unit.None? && amount == 0.0
    {
      flow, property, unit, amount := None, None, None, 0.0;
    }

    /** Property and unit are the ones the flow declares as its reference. */
    predicate ReferenceOfFlow()
      reads this
    {
      match flow
      case None => property.None? && unit.None?
      case Some(f) => property == f.referenceFlowProperty && unit == f.referenceUnit
    }
  }

  class Epd {
    var product: EpdProduct?

    constructor (product: EpdProduct?)
      ensures this.product == product
    {
      this.product := product;
    }
  }

  /** The editor: its model, its dirty state and the events it has emitted. */
  class EpdEditor {
    const epd: Epd
    var dirty: bool
    var events: seq<string>

    constructor (epd: Epd)
      ensures this.epd == epd && !dirty && events == []
    {
      this.epd := epd;
      dirty := false;
      events := [];
    }
  }

  class EpdProductSection {
    const editor: EpdEditor

    constructor (editor: EpdEditor)
      ensures this.editor == editor
    {
      this.editor := editor;
    }

    /**
     * `product()`: the EPD's product; when it has none, a new product with
     * amount 1 is stored first, so that every later call returns that object.
     */
    method Product() returns (p: EpdProduct)
      modifies editor.epd
      ensures editor.epd.product == p
      ensures old(editor.epd.product) != null ==> p == old(editor.epd.product)
      ensures old(editor.epd.product) == null ==>
                fresh(p) && p.amount == 1.0 && p.flow.None? && p.property.None? && p.unit.None?
    {
      var epd := editor.epd;
      if epd.product == null {
        epd.product := new EpdProduct();
        epd.product.amount := 1.0;
      }
      return epd.product;
    }

    /** The amount field: the product takes the amount and the editor is dirty. */
    method OnAmountChanged(amount: real)
      modifies editor.epd, editor.epd.product, editor
      ensures editor.epd.product != null && editor.epd.product.amount == amount
      ensures old(editor.epd.product) != null ==> editor.epd.product == old(editor.epd.product)
      ensures old(editor.epd.product) != null ==> unchanged(old(editor.epd.product)`flow, old(editor.epd.product)`property, old(editor.epd.product)`unit)
      ensures old(editor.epd.product) == null ==>
                fresh(editor.epd.product) && editor.epd.product.flow.None?
                && editor.epd.product.property.None? && editor.epd.product.unit.None?
      ensures editor.dirty && editor.events == old(editor.events)
    {
      var product := Product();
      product.amount := amount;
      editor.dirty := true;
    }

    /**
     * The flow link: the product takes the flow together with its reference
     * flow property and reference unit (both null for a null flow), the
     * editor emits "product.changed" and is dirty.
     */
    method OnFlowChanged(flow: Option<Flow>)
      modifies editor.epd, editor.epd.product, editor
      ensures editor.epd.product != null
      ensures old(editor.epd.product) != null ==> editor.epd.product == old(editor.epd.product)
      ensures old(editor.epd.product) != null ==> editor.epd.product.amount == old(editor.epd.product.amount)
      ensures old(editor.epd.product) == null ==> fresh(editor.epd.product) && editor.epd.product.amount == 1.0
      ensures editor.epd.product.flow == flow && editor.epd.product.ReferenceOfFlow()
      ensures editor.events == old(editor.events) + ["product.changed"] && editor.dirty
    {
      var product := Product();
      product.flow := flow;
      product.property := if flow.Some? then flow.value.referenceFlowProperty else None;
      product.unit := if flow.Some? then flow.value.referenceUnit else None;
      editor.events := editor.events + ["product.changed"];
      editor.dirty := true;
    }

    /**
     * The unit combo: the product takes the property and the unit of the
     * selected item, the editor emits "unit.changed" and is dirty.
     */
    method OnUnitSelected(item: UnitItem)
      modifies editor.epd, editor.epd.product, editor
      ensures editor.epd.product != null
      ensures old(editor.epd.product) != null ==> editor.epd.product == old(editor.epd.product)
      ensures old(editor.epd.product) != null ==>
                editor.epd.product.amount == old(editor.epd.product.amount) && editor.epd.product.flow == old(editor.epd.product.flow)
      ensures old(editor.epd.product) == null ==>
                fresh(editor.epd.product) && editor.epd.product.amount == 1.0 && editor.epd.product.flow.None?
      ensures editor.epd.product.property == item.property && editor.epd.product.unit == item.unit
      ensures editor.events == old(editor.events) + ["unit.changed"] && editor.dirty
    {
      var product := Product();
      product.property := item.property;
      product.unit := item.unit;
      editor.events := editor.events + ["unit.changed"];
      editor.dirty := true;
    }
  }
}
