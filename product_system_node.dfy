/**
 * The root node of the product-system graph (`ProductSystemNode`): finding a
 * process node by the id of its process, and setting or clearing the
 * highlight flag of exchange nodes, only inside process nodes that are
 * visible and not minimised. The matching rule of exchange nodes
 * (`ExchangeNode.matches`) is foreign and enters as a relation on exchanges.
 */
module ProductSystemGraph {

  /** The exchange an exchange node shows, as far as matching needs it. */
  datatype Exchange = Exchange(id: nat, flowId: nat, isInput: bool)

  class ExchangeNode {
    const exchange: Exchange
    var highlighted: bool

    constructor (exchange: Exchange)
      ensures this.exchange == exchange && !highlighted
    {
      this.exchange := exchange;
      highlighted := false;
    }
  }

  /** The input/output box that is the first child of a process node. */
  class IONode {
    const children: seq<ExchangeNode>

    constructor (children: seq<ExchangeNode>)
      ensures this.children == children
    {
      this.children := children;
    }
  }

  class ProcessNode {
    /** The id of the process the node shows (`process.getId()`). */
    const processId: int
    var visible: bool
    var minimized: bool
    /** The child nodes; the first one is the input/output box. */
    const children: seq<IONode>
    /** `getExchangeNodes()`. */
    const exchangeNodes: seq<ExchangeNode>

    constructor (processId: int, children: seq<IONode>, exchangeNodes: seq<ExchangeNode>)
      ensures this.processId == processId && this.children == children && this.exchangeNodes == exchangeNodes
      ensures visible && !minimized
    {
      this.processId := processId;
      this.children := children;
      this.exchangeNodes := exchangeNodes;
      visible := true;
      minimized := false;
    }

    /** The node takes part in highlighting: it is visible and not minimised. */
    predicate Shown()
      reads this
    {
      visible && !minimized
    }
  }

  class ProductSystemNode {
    /** The process nodes (`getChildren()`). */
    const children: seq<ProcessNode>

    constructor (children: seq<ProcessNode>)
      ensures this.children == children
    {
      this.children := children;
    }

    /** Every exchange node reached through `getExchangeNodes()`. */
    ghost function ExchangeNodes(): (r: set<ExchangeNode>)
    {
      set p, e | p in children && e in p.exchangeNodes :: e
    }

    /** Every exchange node reached through the first child of a process node. */
    ghost function BoxedExchangeNodes(): (r: set<ExchangeNode>)
    {
      set p, e | p in children && |p.children| > 0 && e in p.children[0].children :: e
    }

    /** The exchange nodes that `procs` contribute to highlighting `toMatch`. */
    ghost function Matching(procs: seq<ProcessNode>, toMatch: Exchange, matches: (Exchange, Exchange) -> bool): (r: set<ExchangeNode>)
      reads procs
    {
      set p, e | p in procs && p.Shown() && e in p.exchangeNodes && matches(toMatch, e.exchange) :: e
    }

    /** The exchange nodes that `procs` have cleared, when each has a first child. */
    ghost function Clearing(procs: seq<ProcessNode>): (r: set<ExchangeNode>)
      reads procs
    {
      set p, e | p in procs && p.Shown() && |p.children| > 0 && e in p.children[0].children :: e
    }

    /** No exchange node is shared by two process nodes (the graph is a tree). */
    ghost predicate Disjoint()
    {
      && (forall p, q, e :: p in children && q in children && p != q && e in p.exchangeNodes ==> e !in q.exchangeNodes)
      && (forall p, q, e ::
            p in children && q in children && p != q && |p.children| > 0 && |q.children| > 0 && e in p.children[0].children
            ==> e !in q.children[0].children)
    }

    /**
     * In a tree, the exchange nodes of a hidden or minimised process node are
     * neither highlighted nor cleared.
     */
    lemma HiddenNodeUntouched(p: ProcessNode, toMatch: Exchange, matches: (Exchange, Exchange) -> bool)
      requires Disjoint() && p in children && !p.Shown()
      ensures forall e :: e in p.exchangeNodes ==> e !in Matching(children, toMatch, matches)
      ensures |p.children| > 0 ==> forall e :: e in p.children[0].children ==> e !in Clearing(children)
    {
    }

    /**
     * `getProcessNode`: the first process node whose process has the id, or
     * null when there is none.
     */
    method GetProcessNode(id: int) returns (r: ProcessNode?)
      ensures r == null <==> forall p :: p in children ==> p.processId != id
      ensures r != null ==> exists k :: 0 <= k < |children| && children[k] == r && r.processId == id
                                         && forall j :: 0 <= j < k ==> children[j].processId != id
    {
      for i := 0 to |children|
        invariant forall j :: 0 <= j < i ==> children[j].processId != id
      {
        if children[i].processId == id {
          return children[i];
        }
      }
      return null;
    }

    /**
     * `highlightMatchingExchanges`: nothing for a null node to match; otherwise
     * the flag is set on the matching exchange nodes of the shown process
     * nodes, and no flag is ever cleared.
     */
    method HighlightMatchingExchanges(toMatch: ExchangeNode?, matches: (Exchange, Exchange) -> bool)
      modifies ExchangeNodes()
      ensures toMatch == null ==> forall e :: e in ExchangeNodes() ==> e.highlighted == old(e.highlighted)
      ensures toMatch != null ==> forall e :: e in ExchangeNodes() ==>
                e.highlighted == (old(e.highlighted) || e in Matching(children, toMatch.exchange, matches))
    {
      if toMatch == null {
        return;
      }
      for i := 0 to |children|
        invariant forall e :: e in ExchangeNodes() ==>
                    e.highlighted == (old(e.highlighted) || e in Matching(children[..i], toMatch.exchange, matches))
      {
        var process := children[i];
        assert forall q :: q in children[..i + 1] <==> q in children[..i] || q == process;
        if !process.visible || process.minimized {
          continue;
        }
        var nodes := process.exchangeNodes;
        for j := 0 to |nodes|
          invariant forall e :: e in ExchangeNodes() ==>
                      e.highlighted == (old(e.highlighted) || e in Matching(children[..i], toMatch.exchange, matches)
                                        || (e in nodes[..j] && matches(toMatch.exchange, e.exchange)))
        {
          if matches(toMatch.exchange, nodes[j].exchange) {
            assert nodes[j] in ExchangeNodes() by { assert process in children && nodes[j] in process.exchangeNodes; }
            nodes[j].highlighted := true;
          }
        }
        assert nodes[..|nodes|] == nodes;
      }
      assert children[..|children|] == children;
    }

    /**
     * `removeHighlighting`: the flag is cleared on every exchange node under the
     * first child of each shown process node. A shown node without children
     * makes `get(0)` throw (`ok` false), which ends the loop there.
     */
    method RemoveHighlighting() returns (ok: bool)
      modifies BoxedExchangeNodes()
      ensures ok <==> forall p :: p in children && p.Shown() ==> |p.children| > 0
      ensures forall e :: e in BoxedExchangeNodes() ==> e.highlighted ==> old(e.highlighted)
      ensures forall e :: e in BoxedExchangeNodes() && e !in Clearing(children) ==> e.highlighted == old(e.highlighted)
      ensures ok ==> forall e :: e in Clearing(children) ==> !e.highlighted
    {
      for i := 0 to |children|
        invariant forall p :: p in children[..i] && p.Shown() ==> |p.children| > 0
        invariant forall e :: e in BoxedExchangeNodes() ==>
                    e.highlighted == (old(e.highlighted) && e !in Clearing(children[..i]))
      {
        var node := children[i];
        assert forall q :: q in children[..i + 1] <==> q in children[..i] || q == node;
        if !node.visible || node.minimized {
          continue;
        }
        if |node.children| == 0 {
          return false;
        }
        var nodes := node.children[0].children;
        for j := 0 to |nodes|
          invariant forall e :: e in BoxedExchangeNodes() ==>
                      e.highlighted == (old(e.highlighted) && e !in Clearing(children[..i]) && e !in nodes[..j])
        {
          assert nodes[j] in BoxedExchangeNodes() by { assert node in children && nodes[j] in node.children[0].children; }
          nodes[j].highlighted := false;
        }
        assert nodes[..|nodes|] == nodes;
      }
      assert children[..|children|] == children;
      return true;
    }
  }
}
