/** Stock bookkeeping as functions of the product catalogue: the checked decrement of
    `ProdutoService.atualizarEstoque`, the per-item guards of order creation and update, the
    restoration done when items are replaced or an order is deleted, and what each of them does
    to the catalogue over a whole list of lines. The service methods are proved against these. */
module Stock {
  import opened Results
  import opened JavaInt
  import opened Domain

  /** The product repository's contents, by id. */
  type Catalog = map<nat, Product>

  /** The total quantity a list of lines asks of product `pid`. */
  function Demand(lines: seq<Line>, pid: nat): int
  {
    if |lines| == 0 then 0
    else
      var last := lines[|lines| - 1];
      Demand(lines[..|lines| - 1], pid) + (if last.produtoId == pid then last.quantidade else 0)
  }

  /** Every line names a stored product and a positive quantity. */
  predicate AllValid(c: Catalog, lines: seq<Line>)
  {
    forall i :: 0 <= i < |lines| ==> lines[i].produtoId in c && lines[i].quantidade > 0
  }

  /** No product is asked for more than it has in stock, counting all lines together. */
  ghost predicate Fits(c: Catalog, lines: seq<Line>)
  {
    forall k :: k in c && Demand(lines, k) > 0 ==> Demand(lines, k) <= c[k].quantidadeEstoque
  }

  /** `d` holds the same products as `c`, differing at most in their stock. */
  ghost predicate SameButStock(c: Catalog, d: Catalog)
  {
    && c.Keys == d.Keys
    && forall k :: k in c ==> d[k] == c[k].(quantidadeEstoque := d[k].quantidadeEstoque)
  }

  /** The checks applied to each requested item (PedidoService.java:206-218 and :135-143):
      the product must exist, the quantity must be positive and must not exceed the stock. */
  function ItemCheck(c: Catalog, l: Line): Option<Error>
  {
    if l.produtoId !in c then Some(NotFound(Produto, l.produtoId))
    else if l.quantidade <= 0 then Some(BadRequest(NonPositiveQuantity))
    else if l.quantidade > c[l.produtoId].quantidadeEstoque then
      Some(BadRequest(InsufficientStock(c[l.produtoId].nome)))
    else None
  }

  /** The error of the first line that fails `ItemCheck`, every line checked against the same catalogue. */
  function FirstInvalid(c: Catalog, lines: seq<Line>): Option<Error>
  {
    if |lines| == 0 then None
    else
      var before := FirstInvalid(c, lines[..|lines| - 1]);
      if before.Some? then before else ItemCheck(c, lines[|lines| - 1])
  }

  /** The item built for a checked line: unit price snapshotted from the product,
      total = unit price x quantity, not yet saved (no id). */
  function Priced(c: Catalog, pedidoId: Option<nat>, l: Line): (it: Item)
    requires l.produtoId in c
  {
    Item(None, pedidoId, l.produtoId, l.quantidade, c[l.produtoId].preco,
         c[l.produtoId].preco * l.quantidade)
  }

  /** `ProdutoService.atualizarEstoque(pid, q)`: `novoEstoque = stock - q` in `int` arithmetic,
      refused with a plain runtime exception when negative. */
  function Decrement(c: Catalog, pid: nat, q: int32): (r: Result<Catalog, Error>)
    ensures pid !in c ==> r == Err(NotFound(Produto, pid))
    ensures r.Ok? ==> SameButStock(c, r.value)
    ensures pid in c && InRange(c[pid].quantidadeEstoque - q) ==>
              (r.Ok? <==> q <= c[pid].quantidadeEstoque)
    ensures r.Ok? ==> r.value[pid].quantidadeEstoque == SubInt(c[pid].quantidadeEstoque, q)
    ensures r.Ok? && InRange(c[pid].quantidadeEstoque - q) ==>
              r.value[pid].quantidadeEstoque == c[pid].quantidadeEstoque - q
    ensures r.Ok? ==> r.value[pid].quantidadeEstoque >= 0
    ensures r.Ok? ==> forall k :: k in c && k != pid ==> r.value[k] == c[k]
    ensures r.Err? && pid in c ==> r.error == RuntimeFailure(InsufficientStock(c[pid].nome))
  {
    if pid !in c then Err(NotFound(Produto, pid))
    else
      var novo := SubInt(c[pid].quantidadeEstoque, q);
      if novo < 0 then Err(RuntimeFailure(InsufficientStock(c[pid].nome)))
      else Ok(c[pid := c[pid].(quantidadeEstoque := novo)])
  }

  /** The decrement loop of order creation (PedidoService.java:89-95): one `atualizarEstoque`
      per line, in order; the first failure aborts. */
  function DecrementAll(c: Catalog, lines: seq<Line>): Result<Catalog, Error>
  {
    if |lines| == 0 then Ok(c)
    else
      match DecrementAll(c, lines[..|lines| - 1])
      case Err(e) => Err(e)
      case Ok(c1) => Decrement(c1, lines[|lines| - 1].produtoId, lines[|lines| - 1].quantidade)
  }

  /** Giving one item's quantity back to its product (`stock + quantidade` in `int` arithmetic);
      a product no longer stored is skipped. */
  function Restore(c: Catalog, l: Line): Catalog
  {
    if l.produtoId in c then
      c[l.produtoId := c[l.produtoId].(quantidadeEstoque := AddInt(c[l.produtoId].quantidadeEstoque, l.quantidade))]
    else c
  }

  /** The restoration loops of order update and delete (PedidoService.java:124-128, :187-191). */
  function RestoreAll(c: Catalog, lines: seq<Line>): Catalog
  {
    if |lines| == 0 then c else Restore(RestoreAll(c, lines[..|lines| - 1]), lines[|lines| - 1])
  }

  /** The new-items loop of order update (PedidoService.java:134-158): each line is checked
      against the stock left by the lines before it, then decremented. */
  function Replace(c: Catalog, lines: seq<Line>): Result<Catalog, Error>
  {
    if |lines| == 0 then Ok(c)
    else
      match Replace(c, lines[..|lines| - 1])
      case Err(e) => Err(e)
      case Ok(c1) =>
        var last := lines[|lines| - 1];
        match ItemCheck(c1, last)
        case Some(e) => Err(e)
        case None => Decrement(c1, last.produtoId, last.quantidade)
  }

  /** Why order creation fails, if it does: an empty list, then the first line failing its
      check against the initial stock, then the first failing decrement. */
  function CreateError(c: Catalog, lines: seq<Line>): Option<Error>
  {
    if |lines| == 0 then Some(BadRequest(EmptyItems))
    else if FirstInvalid(c, lines).Some? then FirstInvalid(c, lines)
    else match DecrementAll(c, lines)
      case Err(e) => Some(e)
      case Ok(_) => None
  }

  // ---------------------------------------------------------------------------------------
  // Demand

  lemma {:induction false} DemandNonNegative(lines: seq<Line>, pid: nat)
    requires forall i :: 0 <= i < |lines| ==> lines[i].quantidade > 0
    ensures Demand(lines, pid) >= 0
    decreases |lines|
  {
    if |lines| > 0 {
      DemandNonNegative(lines[..|lines| - 1], pid);
    }
  }

  lemma {:induction false} DemandCoversLine(lines: seq<Line>, i: nat)
    requires i < |lines|
    requires forall j :: 0 <= j < |lines| ==> lines[j].quantidade > 0
    ensures Demand(lines, lines[i].produtoId) >= lines[i].quantidade
    decreases |lines|
  {
    var prefix := lines[..|lines| - 1];
    if i < |lines| - 1 {
      assert prefix[i] == lines[i];
      DemandCoversLine(prefix, i);
    } else {
      DemandNonNegative(prefix, lines[i].produtoId);
    }
  }

  lemma FitsPrefix(c: Catalog, lines: seq<Line>)
    requires |lines| > 0
    requires forall j :: 0 <= j < |lines| ==> lines[j].quantidade > 0
    requires Fits(c, lines)
    ensures Fits(c, lines[..|lines| - 1])
  {
  }

  // ---------------------------------------------------------------------------------------
  // Catalogue shapes

  lemma SameButStockTrans(a: Catalog, b: Catalog, d: Catalog)
    requires SameButStock(a, b) && SameButStock(b, d)
    ensures SameButStock(a, d)
  {
  }

  /** Two catalogues with a common origin and the same stock everywhere are equal. */
  lemma SameStocksEqual(c: Catalog, d: Catalog, e: Catalog)
    requires SameButStock(c, d) && SameButStock(c, e)
    requires forall k :: k in c ==> d[k].quantidadeEstoque == e[k].quantidadeEstoque
    ensures d == e
  {
    forall k | k in d ensures d[k] == e[k] {
    }
  }

  // ---------------------------------------------------------------------------------------
  // Decrementing a whole list

  /** Creation's decrement loop, when every line names a stored product with a positive
      quantity and non-negative stock: it succeeds exactly when no product is oversubscribed,
      lowers each product's stock by exactly what the lines ask of it and touches nothing
      else, and otherwise fails with the runtime exception of `atualizarEstoque`. */
  lemma {:induction false} DecrementAllFits(c: Catalog, lines: seq<Line>)
    requires AllValid(c, lines)
    requires forall i :: 0 <= i < |lines| ==> c[lines[i].produtoId].quantidadeEstoque >= 0
    ensures DecrementAll(c, lines).Ok? <==> Fits(c, lines)
    ensures DecrementAll(c, lines).Ok? ==>
              && SameButStock(c, DecrementAll(c, lines).value)
              && forall k :: k in c ==>
                   DecrementAll(c, lines).value[k].quantidadeEstoque == c[k].quantidadeEstoque - Demand(lines, k)
    ensures DecrementAll(c, lines).Err? ==> DecrementAll(c, lines).error.RuntimeFailure?
    decreases |lines|
  {
    if |lines| > 0 {
      var prefix, last := lines[..|lines| - 1], lines[|lines| - 1];
      assert forall i :: 0 <= i < |prefix| ==> prefix[i] == lines[i];
      DecrementAllFits(c, prefix);
      var pid := last.produtoId;
      match DecrementAll(c, prefix)
      case Err(e) =>
        assert !Fits(c, prefix);
        var k :| k in c && Demand(prefix, k) > 0 && Demand(prefix, k) > c[k].quantidadeEstoque;
        DemandNonNegative(prefix, k);
        assert Demand(lines, k) >= Demand(prefix, k);
      case Ok(c1) =>
        DemandNonNegative(prefix, pid);
        assert c1[pid].quantidadeEstoque >= 0;
        forall k | k != pid ensures Demand(lines, k) == Demand(prefix, k) { }
        assert Demand(lines, pid) == Demand(prefix, pid) + last.quantidade;
        if Fits(c, lines) {
          FitsPrefix(c, lines);
          assert Demand(lines, pid) <= c[pid].quantidadeEstoque;
        }
    }
  }

  /** One successful decrement lowers its product's stock by its quantity in `int` arithmetic
      and leaves every other stock where it was. */
  lemma DecrementStepAt(c: Catalog, d: Catalog, base: Catalog, prefix: seq<Line>, last: Line, k: nat)
    requires k in base
    requires SameButStock(base, c) && SameButStock(c, d)
    requires c[k].quantidadeEstoque == Wrap32(base[k].quantidadeEstoque - Demand(prefix, k))
    requires k != last.produtoId ==> d[k] == c[k]
    requires k == last.produtoId ==>
               d[k].quantidadeEstoque == Wrap32(c[k].quantidadeEstoque - last.quantidade)
    ensures d[k].quantidadeEstoque == Wrap32(base[k].quantidadeEstoque - Demand(prefix + [last], k))
  {
    var lines := prefix + [last];
    assert lines[..|lines| - 1] == prefix;
    if k == last.produtoId {
      WrapLowerTwice(base[k].quantidadeEstoque, Demand(prefix, k), last.quantidade,
                     c[k].quantidadeEstoque, d[k].quantidadeEstoque);
    }
  }

  /** A successful decrement loop changes nothing but stocks. */
  lemma {:induction false} DecrementAllShape(c: Catalog, lines: seq<Line>)
    requires DecrementAll(c, lines).Ok?
    ensures SameButStock(c, DecrementAll(c, lines).value)
    decreases |lines|
  {
    if |lines| > 0 {
      var prefix := lines[..|lines| - 1];
      DecrementAllShape(c, prefix);
      SameButStockTrans(c, DecrementAll(c, prefix).value, DecrementAll(c, lines).value);
    }
  }

  /** A successful decrement loop over one more line is one more `Decrement`. */
  lemma DecrementAllSnoc(c: Catalog, prefix: seq<Line>, last: Line)
    requires DecrementAll(c, prefix + [last]).Ok?
    ensures DecrementAll(c, prefix).Ok?
    ensures Decrement(DecrementAll(c, prefix).value, last.produtoId, last.quantidade) == DecrementAll(c, prefix + [last])
  {
    var lines := prefix + [last];
    assert lines[..|lines| - 1] == prefix;
  }

  /** The induction step of `DecrementAllAt`: one more line decremented. */
  lemma DecrementAllAtStep(c: Catalog, prefix: seq<Line>, last: Line, k: nat)
    requires DecrementAll(c, prefix + [last]).Ok? && k in c
    requires DecrementAll(c, prefix).Ok? && k in DecrementAll(c, prefix).value
    requires DecrementAll(c, prefix).value[k].quantidadeEstoque == Wrap32(c[k].quantidadeEstoque - Demand(prefix, k))
    ensures k in DecrementAll(c, prefix + [last]).value
    ensures DecrementAll(c, prefix + [last]).value[k].quantidadeEstoque
              == Wrap32(c[k].quantidadeEstoque - Demand(prefix + [last], k))
  {
    DecrementAllSnoc(c, prefix, last);
    DecrementAllShape(c, prefix);
    var c1, c2 := DecrementAll(c, prefix).value, DecrementAll(c, prefix + [last]).value;
    IntOpsWrap(c1[k].quantidadeEstoque, last.quantidade);
    DecrementStepAt(c1, c2, c, prefix, last, k);
  }

  /** A successful decrement loop lowers product `k`'s stock by its demand in `int` arithmetic. */
  lemma {:induction false} DecrementAllAt(c: Catalog, lines: seq<Line>, k: nat)
    requires DecrementAll(c, lines).Ok? && k in c
    ensures k in DecrementAll(c, lines).value
    ensures DecrementAll(c, lines).value[k].quantidadeEstoque == Wrap32(c[k].quantidadeEstoque - Demand(lines, k))
    decreases |lines|
  {
    if |lines| > 0 {
      var prefix, last := lines[..|lines| - 1], lines[|lines| - 1];
      assert prefix + [last] == lines;
      DecrementAllAt(c, prefix, k);
      DecrementAllAtStep(c, prefix, last, k);
    }
  }

  /** Whatever the stocks, a successful decrement loop lowers each product's stock by its
      demand in `int` arithmetic. */
  lemma DecrementAllWrapped(c: Catalog, lines: seq<Line>)
    requires DecrementAll(c, lines).Ok?
    ensures SameButStock(c, DecrementAll(c, lines).value)
    ensures forall k :: k in c ==>
              DecrementAll(c, lines).value[k].quantidadeEstoque == Wrap32(c[k].quantidadeEstoque - Demand(lines, k))
  {
    DecrementAllShape(c, lines);
    forall k | k in c
      ensures DecrementAll(c, lines).value[k].quantidadeEstoque == Wrap32(c[k].quantidadeEstoque - Demand(lines, k))
    {
      DecrementAllAt(c, lines, k);
    }
  }

  /** Restoring a list of lines changes nothing but stocks. */
  lemma {:induction false} RestoreAllShape(c: Catalog, lines: seq<Line>)
    ensures SameButStock(c, RestoreAll(c, lines))
    decreases |lines|
  {
    if |lines| > 0 {
      var prefix := lines[..|lines| - 1];
      RestoreAllShape(c, prefix);
      SameButStockTrans(c, RestoreAll(c, prefix), RestoreAll(c, lines));
    }
  }

  /** The induction step of `RestoreAllAt`: one more line given back. */
  lemma RestoreAllAtStep(c: Catalog, prefix: seq<Line>, last: Line, k: nat)
    requires k in c && k in RestoreAll(c, prefix)
    requires RestoreAll(c, prefix)[k].quantidadeEstoque == Wrap32(c[k].quantidadeEstoque + Demand(prefix, k))
    ensures k in RestoreAll(c, prefix + [last])
    ensures RestoreAll(c, prefix + [last])[k].quantidadeEstoque
              == Wrap32(c[k].quantidadeEstoque + Demand(prefix + [last], k))
  {
    var lines := prefix + [last];
    assert lines[..|lines| - 1] == prefix;
    var c1, c2 := RestoreAll(c, prefix), RestoreAll(c, lines);
    assert c2 == Restore(c1, last);
    if k == last.produtoId {
      IntOpsWrap(c1[k].quantidadeEstoque, last.quantidade);
      WrapTwoSteps(c[k].quantidadeEstoque, Demand(prefix, k), last.quantidade,
                   c1[k].quantidadeEstoque, c2[k].quantidadeEstoque);
    }
  }

  /** Restoring a list of lines raises product `k`'s stock by its demand in `int` arithmetic. */
  lemma {:induction false} RestoreAllAt(c: Catalog, lines: seq<Line>, k: nat)
    requires k in c
    ensures k in RestoreAll(c, lines)
    ensures RestoreAll(c, lines)[k].quantidadeEstoque == Wrap32(c[k].quantidadeEstoque + Demand(lines, k))
    decreases |lines|
  {
    if |lines| > 0 {
      var prefix, last := lines[..|lines| - 1], lines[|lines| - 1];
      assert prefix + [last] == lines;
      RestoreAllAt(c, prefix, k);
      RestoreAllAtStep(c, prefix, last, k);
    }
  }

  /** Restoring a list of lines raises each product's stock by its demand in `int` arithmetic. */
  lemma RestoreAllWrapped(c: Catalog, lines: seq<Line>)
    ensures SameButStock(c, RestoreAll(c, lines))
    ensures forall k :: k in c ==>
              RestoreAll(c, lines)[k].quantidadeEstoque == Wrap32(c[k].quantidadeEstoque + Demand(lines, k))
  {
    RestoreAllShape(c, lines);
    forall k | k in c
      ensures RestoreAll(c, lines)[k].quantidadeEstoque == Wrap32(c[k].quantidadeEstoque + Demand(lines, k))
    {
      RestoreAllAt(c, lines, k);
    }
  }

  /** Product `k`'s stock after a successful decrement loop and the restoration of the same
      lines is what it was before. */
  lemma RestoreUndoesDecrementAt(c: Catalog, lines: seq<Line>, k: nat)
    requires DecrementAll(c, lines).Ok? && k in c
    ensures k in RestoreAll(DecrementAll(c, lines).value, lines)
    ensures RestoreAll(DecrementAll(c, lines).value, lines)[k].quantidadeEstoque == c[k].quantidadeEstoque
  {
    var c1 := DecrementAll(c, lines).value;
    DecrementAllAt(c, lines, k);
    RestoreAllAt(c1, lines, k);
    WrapUndo(c[k].quantidadeEstoque, Demand(lines, k), c1[k].quantidadeEstoque,
             RestoreAll(c1, lines)[k].quantidadeEstoque);
  }

  /** Giving back the quantities of a successful decrement loop restores the catalogue exactly,
      wrap-around included: creating an order and then deleting it leaves every stock unchanged. */
  lemma RestoreUndoesDecrement(c: Catalog, lines: seq<Line>)
    requires DecrementAll(c, lines).Ok?
    ensures RestoreAll(DecrementAll(c, lines).value, lines) == c
  {
    var c1 := DecrementAll(c, lines).value;
    var c2 := RestoreAll(c1, lines);
    DecrementAllShape(c, lines);
    RestoreAllShape(c1, lines);
    SameButStockTrans(c, c1, c2);
    forall k | k in c ensures c2[k].quantidadeEstoque == c[k].quantidadeEstoque {
      RestoreUndoesDecrementAt(c, lines, k);
    }
    SameStocksEqual(c, c, c2);
  }

  // ---------------------------------------------------------------------------------------
  // Checking a whole list

  lemma {:induction false} FirstInvalidNone(c: Catalog, lines: seq<Line>)
    ensures FirstInvalid(c, lines).None? <==> forall i :: 0 <= i < |lines| ==> ItemCheck(c, lines[i]).None?
    decreases |lines|
  {
    if |lines| > 0 {
      var prefix := lines[..|lines| - 1];
      assert forall i :: 0 <= i < |prefix| ==> prefix[i] == lines[i];
      FirstInvalidNone(c, prefix);
    }
  }

  /** Each step of update's loop only lowers the stock of the line's product, by its quantity. */
  lemma {:induction false} ReplaceShape(c: Catalog, lines: seq<Line>)
    requires Replace(c, lines).Ok?
    ensures SameButStock(c, Replace(c, lines).value)
    ensures forall k :: k in c ==>
              Replace(c, lines).value[k].quantidadeEstoque == c[k].quantidadeEstoque - Demand(lines, k)
    decreases |lines|
  {
    if |lines| > 0 {
      var prefix, last := lines[..|lines| - 1], lines[|lines| - 1];
      ReplaceShape(c, prefix);
      var c1 := Replace(c, prefix).value;
      assert ItemCheck(c1, last).None?;
      assert Replace(c, lines) == Decrement(c1, last.produtoId, last.quantidade);
    }
  }

  /** Update's loop fails only with the NotFound or BadRequest of an item check, and only with
      a BadRequest when every line names a stored product. */
  lemma {:induction false} ReplaceErrors(c: Catalog, lines: seq<Line>)
    requires Replace(c, lines).Err?
    ensures Replace(c, lines).error.NotFound? || Replace(c, lines).error.BadRequest?
    ensures (forall i :: 0 <= i < |lines| ==> lines[i].produtoId in c) ==> Replace(c, lines).error.BadRequest?
    decreases |lines|
  {
    var prefix, last := lines[..|lines| - 1], lines[|lines| - 1];
    assert forall i :: 0 <= i < |prefix| ==> prefix[i] == lines[i];
    if Replace(c, prefix).Err? {
      ReplaceErrors(c, prefix);
    } else {
      ReplaceShape(c, prefix);
      var c1 := Replace(c, prefix).value;
      assert ItemCheck(c1, last).Some?;
    }
  }

  /** Once update's loop has failed on a prefix, it fails on the whole list, and so does
      the characterisation. */
  lemma ReplaceFitsAfterFailure(c: Catalog, prefix: seq<Line>, last: Line)
    requires Replace(c, prefix).Err?
    requires !(AllValid(c, prefix) && Fits(c, prefix))
    ensures Replace(c, prefix + [last]).Err?
    ensures !(AllValid(c, prefix + [last]) && Fits(c, prefix + [last]))
  {
    var lines := prefix + [last];
    assert lines[..|lines| - 1] == prefix;
    assert forall i :: 0 <= i < |prefix| ==> prefix[i] == lines[i];
    if AllValid(c, lines) {
      assert AllValid(c, prefix);
      var k :| k in c && Demand(prefix, k) > 0 && Demand(prefix, k) > c[k].quantidadeEstoque;
      assert Demand(lines, k) >= Demand(prefix, k);
    }
  }

  /** When update's loop has accepted a prefix, it accepts one more line exactly when that
      line names a stored product with a positive quantity that still fits in its stock. */
  lemma ReplaceFitsAfterSuccess(c: Catalog, prefix: seq<Line>, last: Line)
    requires Replace(c, prefix).Ok?
    requires AllValid(c, prefix) && Fits(c, prefix)
    ensures Replace(c, prefix + [last]).Ok? <==> AllValid(c, prefix + [last]) && Fits(c, prefix + [last])
  {
    var lines := prefix + [last];
    var pid := last.produtoId;
    assert lines[..|lines| - 1] == prefix;
    assert forall i :: 0 <= i < |prefix| ==> prefix[i] == lines[i];
    forall k | k != pid ensures Demand(lines, k) == Demand(prefix, k) { }
    ReplaceShape(c, prefix);
    var c1 := Replace(c, prefix).value;
    if AllValid(c, lines) {
      DemandNonNegative(prefix, pid);
      assert Demand(lines, pid) == Demand(prefix, pid) + last.quantidade;
      assert c1[pid].quantidadeEstoque == c[pid].quantidadeEstoque - Demand(prefix, pid);
      if Fits(c, lines) {
        assert ItemCheck(c1, last).None?;
      } else {
        var k :| k in c && Demand(lines, k) > 0 && Demand(lines, k) > c[k].quantidadeEstoque;
        assert k == pid;
        assert ItemCheck(c1, last).Some?;
      }
    } else {
      assert !(last.produtoId in c && last.quantidade > 0);
      assert ItemCheck(c1, last).Some?;
    }
  }

  /** Update's check-and-decrement loop succeeds exactly when every line names a stored
      product with a positive quantity and no product is asked for more than its stock in total. */
  lemma {:induction false} ReplaceFits(c: Catalog, lines: seq<Line>)
    ensures Replace(c, lines).Ok? <==> AllValid(c, lines) && Fits(c, lines)
    decreases |lines|
  {
    if |lines| > 0 {
      var prefix, last := lines[..|lines| - 1], lines[|lines| - 1];
      assert prefix + [last] == lines;
      ReplaceFits(c, prefix);
      if Replace(c, prefix).Err? {
        ReplaceFitsAfterFailure(c, prefix, last);
      } else {
        ReplaceFitsAfterSuccess(c, prefix, last);
      }
    }
  }

  /** Order creation fails exactly when the list is empty, a line names a missing product or a
      non-positive quantity, or some product is asked for more than its stock in total. */
  lemma CreateErrorSpec(c: Catalog, lines: seq<Line>)
    ensures CreateError(c, lines).None? <==> |lines| > 0 && AllValid(c, lines) && Fits(c, lines)
    ensures CreateError(c, lines).None? ==>
              && SameButStock(c, DecrementAll(c, lines).value)
              && forall k :: k in c ==>
                   DecrementAll(c, lines).value[k].quantidadeEstoque == c[k].quantidadeEstoque - Demand(lines, k)
  {
    FirstInvalidNone(c, lines);
    if |lines| > 0 {
      if FirstInvalid(c, lines).None? {
        assert forall i :: 0 <= i < |lines| ==> ItemCheck(c, lines[i]).None?;
        DecrementAllFits(c, lines);
      } else if AllValid(c, lines) && Fits(c, lines) {
        forall i | 0 <= i < |lines| ensures ItemCheck(c, lines[i]).None? {
          DemandCoversLine(lines, i);
        }
        assert false;
      }
    }
  }

  /** Creation checks every line against the initial stock and decrements afterwards; update
      checks each line against the stock its predecessors left. Both accept the same non-empty
      lists and leave the same catalogue. */
  lemma CreateAgreesWithReplace(c: Catalog, lines: seq<Line>)
    requires |lines| > 0
    ensures CreateError(c, lines).None? <==> Replace(c, lines).Ok?
    ensures CreateError(c, lines).None? ==> DecrementAll(c, lines) == Replace(c, lines)
  {
    CreateErrorSpec(c, lines);
    ReplaceFits(c, lines);
    if CreateError(c, lines).None? {
      ReplaceShape(c, lines);
      SameStocksEqual(c, DecrementAll(c, lines).value, Replace(c, lines).value);
    }
  }

  /** Giving back lines the update loop took off the stock restores the stock it started from. */
  lemma RestoreUndoesReplace(c: Catalog, lines: seq<Line>)
    requires |lines| > 0 && Replace(c, lines).Ok?
    ensures RestoreAll(Replace(c, lines).value, lines) == c
  {
    CreateAgreesWithReplace(c, lines);
    RestoreUndoesDecrement(c, lines);
  }

  /** Where they differ is the error: when every line passes its own check but together they
      oversubscribe a product, creation fails inside `atualizarEstoque` with a plain runtime
      exception, whereas update would refuse with a BadRequest. */
  lemma OversubscriptionIsRuntimeFailure(c: Catalog, lines: seq<Line>)
    requires |lines| > 0
    requires forall i :: 0 <= i < |lines| ==> ItemCheck(c, lines[i]).None?
    requires !Fits(c, lines)
    ensures CreateError(c, lines).Some? && CreateError(c, lines).value.RuntimeFailure?
    ensures Replace(c, lines).Err? && Replace(c, lines).error.BadRequest?
  {
    FirstInvalidNone(c, lines);
    DecrementAllFits(c, lines);
    ReplaceFits(c, lines);
    ReplaceErrors(c, lines);
  }

  /** Replacing an order's items by the very same lines, right after the order was created,
      succeeds and leaves the stock where creation left it. */
  lemma ResubmitSameLines(c: Catalog, lines: seq<Line>)
    requires CreateError(c, lines).None?
    ensures Replace(RestoreAll(DecrementAll(c, lines).value, lines), lines) == DecrementAll(c, lines)
  {
    CreateErrorSpec(c, lines);
    RestoreUndoesDecrement(c, lines);
    CreateAgreesWithReplace(c, lines);
  }

  // ---------------------------------------------------------------------------------------
  // Failures are final: the loops stop at the first failing line

  /** Once the creation loop has failed on a prefix, the whole list fails with the same error. */
  lemma {:induction false} DecrementAllErrSticks(c: Catalog, lines: seq<Line>, i: nat)
    requires i <= |lines| && DecrementAll(c, lines[..i]).Err?
    ensures DecrementAll(c, lines) == DecrementAll(c, lines[..i])
    decreases |lines|
  {
    if i < |lines| {
      var prefix := lines[..|lines| - 1];
      assert prefix[..i] == lines[..i];
      DecrementAllErrSticks(c, prefix, i);
    } else {
      assert lines[..i] == lines;
    }
  }

  /** Once update's loop has failed on a prefix, the whole list fails with the same error. */
  lemma {:induction false} ReplaceErrSticks(c: Catalog, lines: seq<Line>, i: nat)
    requires i <= |lines| && Replace(c, lines[..i]).Err?
    ensures Replace(c, lines) == Replace(c, lines[..i])
    decreases |lines|
  {
    if i < |lines| {
      var prefix := lines[..|lines| - 1];
      assert prefix[..i] == lines[..i];
      ReplaceErrSticks(c, prefix, i);
    } else {
      assert lines[..i] == lines;
    }
  }

  /** Once the creation checks have found an invalid line in a prefix, that is the error of the whole list. */
  lemma {:induction false} FirstInvalidSticks(c: Catalog, lines: seq<Line>, i: nat)
    requires i <= |lines| && FirstInvalid(c, lines[..i]).Some?
    ensures FirstInvalid(c, lines) == FirstInvalid(c, lines[..i])
    decreases |lines|
  {
    if i < |lines| {
      var prefix := lines[..|lines| - 1];
      assert prefix[..i] == lines[..i];
      FirstInvalidSticks(c, prefix, i);
    } else {
      assert lines[..i] == lines;
    }
  }

  /** A successful item replacement leaves every product with its old stock, plus what the old
      lines gave back (in `int` arithmetic), minus exactly what the new lines take. */
  lemma UpdateStockEffect(c: Catalog, antigas: seq<Line>, novas: seq<Line>)
    requires Replace(RestoreAll(c, antigas), novas).Ok?
    ensures SameButStock(c, Replace(RestoreAll(c, antigas), novas).value)
    ensures forall k :: k in c ==>
              Replace(RestoreAll(c, antigas), novas).value[k].quantidadeEstoque
                == Wrap32(c[k].quantidadeEstoque + Demand(antigas, k)) - Demand(novas, k)
  {
    RestoreAllWrapped(c, antigas);
    ReplaceShape(RestoreAll(c, antigas), novas);
    SameButStockTrans(c, RestoreAll(c, antigas), Replace(RestoreAll(c, antigas), novas).value);
  }
}
