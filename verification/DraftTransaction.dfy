/** `DraftTransaction`: the claim, commit and drop loops over several layers, run without interference. */
module DraftTransactions {
  import opened DraftSlots
  import opened DraftStore
  import opened Options

  /** No layer is listed twice. */
  ghost predicate Distinct<T>(layers: seq<T>) {
    forall i, j :: 0 <= i < j < |layers| ==> layers[i] != layers[j]
  }

  class DraftTransaction<V(!new)> {
    var layers: seq<Draft<V>>
    var committed: bool

    /** The transaction holds the claim of every layer, each listed once. */
    ghost predicate Holds()
      reads this, layers
    {
      && Distinct(layers)
      && forall d :: d in layers ==> d.claimed && d.Valid()
    }

    constructor (layers: seq<Draft<V>>)
      ensures this.layers == layers && !committed
    {
      this.layers := layers;
      committed := false;
    }

    /**
     * `begin`: claims in order; at the first layer already claimed, releases the claims made so far and
     * reports that layer's position. It succeeds exactly when every layer is free and none is repeated.
     */
    static method Begin(layers: seq<Draft<V>>) returns (r: Result<DraftTransaction<V>, nat>)
      requires forall d :: d in layers ==> d.Valid()
      modifies (set d | d in layers)`claimed
      ensures r.Ok? <==> Distinct(layers) && forall d :: d in layers ==> !old(d.claimed)
      ensures r.Ok? ==> fresh(r.value) && r.value.layers == layers && !r.value.committed && r.value.Holds()
      ensures r.Err? ==> forall d :: d in layers ==> d.claimed == old(d.claimed)
      ensures r.Err? ==> r.error < |layers| && (old(layers[r.error].claimed) || layers[r.error] in layers[..r.error])
      ensures r.Err? ==> Distinct(layers[..r.error]) && forall d :: d in layers[..r.error] ==> !old(d.claimed)
    {
      var index := 0;
      while index < |layers|
        invariant 0 <= index <= |layers|
        invariant Distinct(layers[..index])
        invariant forall d :: d in layers[..index] ==> !old(d.claimed) && d.claimed
        invariant forall d :: d in layers && d !in layers[..index] ==> d.claimed == old(d.claimed)
      {
        var layer := layers[index];
        var ok := layer.TryClaim();
        if !ok {
          Unclaim(layers[..index]);
          return Err(index);
        }
        assert layers[..index + 1] == layers[..index] + [layer];
        index := index + 1;
      }
      assert layers[..index] == layers;
      var transaction := new DraftTransaction(layers);
      return Ok(transaction);
    }

    /** The roll back of a partial claim. */
    static method Unclaim(claimed: seq<Draft<V>>)
      modifies (set d | d in claimed)`claimed
      ensures forall d :: d in claimed ==> !d.claimed
    {
      for i := 0 to |claimed|
        invariant forall d :: d in claimed[..i] ==> !d.claimed
      {
        claimed[i].Release();
        assert claimed[..i + 1] == claimed[..i] + [claimed[i]];
      }
    }

    /** `commit`, including the drop at the end of its scope: every draft becomes the committed value. */
    method Commit()
      requires Holds()
      modifies this`committed, layers
      ensures forall d :: d in layers ==> d.View() == old(d.View()).Applied() && !d.claimed
      ensures forall d :: d in layers ==> d.Valid() && d.View().ValueOf(Committed) == old(d.View().Latest())
    {
      for i := 0 to |layers|
        invariant layers == old(layers) && Distinct(layers)
        invariant forall d :: d in layers ==> d.claimed && d.Valid()
        invariant forall k :: 0 <= k < i ==> layers[k].View() == old(layers[k].View()).Applied()
        invariant forall k :: i <= k < |layers| ==> layers[k].View() == old(layers[k].View())
      {
        layers[i].Apply();
      }
      committed := true;
      Drop();
      forall d | d in layers ensures d.View().ValueOf(Committed) == old(d.View().Latest()) {
        AppliedKeepsValid(old(d.View()));
      }
    }

    /** The `Drop` implementation: without a commit every draft is discarded; every claim is released. */
    method Drop()
      requires Holds()
      modifies layers
      ensures forall d :: d in layers ==> !d.claimed && d.Valid()
      ensures forall d :: d in layers ==>
        d.View() == if committed then old(d.View()) else old(d.View()).Discarded()
    {
      for i := 0 to |layers|
        invariant layers == old(layers) && committed == old(committed) && Distinct(layers)
        invariant forall d :: d in layers ==> d.Valid()
        invariant forall k :: 0 <= k < i ==> !layers[k].claimed
        invariant forall k :: 0 <= k < i ==>
          layers[k].View() == if committed then old(layers[k].View()) else old(layers[k].View()).Discarded()
        invariant forall k :: i <= k < |layers| ==> layers[k].View() == old(layers[k].View())
      {
        DropLayer(layers[i], committed);
      }
    }

    /** One round of that loop. */
    static method DropLayer(layer: Draft<V>, committed: bool)
      requires layer.Valid()
      modifies layer
      ensures layer.Valid() && !layer.claimed
      ensures layer.View() == if committed then old(layer.View()) else old(layer.View()).Discarded()
    {
      if !committed {
        layer.Discard();
      }
      layer.Release();
    }

    /** `rollback`: the committed value of every layer is what it was, and readers see it again. */
    method Rollback()
      requires Holds() && !committed
      modifies layers
      ensures forall d :: d in layers ==>
        && !d.claimed
        && d.Valid()
        && d.View().ValueOf(Committed) == old(d.View().ValueOf(Committed))
        && d.View().Latest() == d.View().ValueOf(Committed)
    {
      Drop();
      forall d | d in layers
        ensures d.View().ValueOf(Committed) == old(d.View().ValueOf(Committed))
          && d.View().Latest() == d.View().ValueOf(Committed)
      {
        DiscardedKeepsValid(old(d.View()));
        assert Keeps(old(d.View()), d.View(), Committed);
      }
    }
  }
}
