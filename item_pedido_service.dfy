/** `ItemPedidoService`: the item repository, its lookups and the checked save that
    prices an item from the product store. */
module ItensPedido {
  import opened Results
  import opened JavaInt
  import opened Domain
  import opened Stock
  import opened Entity
  import opened Produtos

  /** The stored items that belong to order `pedidoId` (`findByPedidoId`). */
  function PorPedido(itens: map<nat, Item>, pedidoId: nat): map<nat, Item>
  {
    map k | k in itens && itens[k].pedidoId == Some(pedidoId) :: itens[k]
  }

  /** The stored items that reference product `produtoId` (`findByProdutoId`). */
  function PorProduto(itens: map<nat, Item>, produtoId: nat): map<nat, Item>
  {
    map k | k in itens && itens[k].produtoId == produtoId :: itens[k]
  }

  /** The item list of order `pedidoId` as a transaction loads it from the table: the rows with
      an id below `n` whose order id is `pedidoId`, in id order (the order entity's `@OneToMany`
      collection over the item table's order id column). */
  function ItensDe(itens: map<nat, Item>, pedidoId: nat, n: nat): seq<Item>
    decreases n
  {
    if n == 0 then []
    else
      ItensDe(itens, pedidoId, n - 1)
      + (if n - 1 in itens && itens[n - 1].pedidoId == Some(pedidoId) then [itens[n - 1]] else [])
  }

  /** In a table whose rows carry their own key as id, the loaded list holds exactly the rows
      below `n` that name the order, each once, in increasing id order. */
  lemma {:induction false} ItensDeSpec(itens: map<nat, Item>, pedidoId: nat, n: nat)
    requires forall k :: k in itens ==> itens[k].id == Some(k)
    ensures forall j :: 0 <= j < |ItensDe(itens, pedidoId, n)| ==>
              var x := ItensDe(itens, pedidoId, n)[j];
              x.id.Some? && x.id.value < n && x.id.value in itens && itens[x.id.value] == x
              && x.pedidoId == Some(pedidoId)
    ensures forall k :: k in itens && k < n && itens[k].pedidoId == Some(pedidoId) ==>
              itens[k] in ItensDe(itens, pedidoId, n)
    ensures forall j, m :: 0 <= j < m < |ItensDe(itens, pedidoId, n)| ==>
              ItensDe(itens, pedidoId, n)[j].id.value < ItensDe(itens, pedidoId, n)[m].id.value
  {
    if n > 0 {
      ItensDeSpec(itens, pedidoId, n - 1);
      var r0 := ItensDe(itens, pedidoId, n - 1);
      var r := ItensDe(itens, pedidoId, n);
      assert forall j :: 0 <= j < |r0| ==> r[j] == r0[j];
      forall k | k in itens && k < n && itens[k].pedidoId == Some(pedidoId)
        ensures itens[k] in r
      {
        if k < n - 1 {
          var j :| 0 <= j < |r0| && r0[j] == itens[k];
          assert r[j] == itens[k];
        } else {
          assert r[|r| - 1] == itens[k];
        }
      }
    }
  }

  /** The loaded list depends only on the rows below `n`. */
  lemma {:induction false} ItensDeFrame(a: map<nat, Item>, b: map<nat, Item>, pedidoId: nat, n: nat)
    requires forall k :: 0 <= k < n ==> (k in a <==> k in b)
    requires forall k :: 0 <= k < n && k in a ==> a[k] == b[k]
    ensures ItensDe(a, pedidoId, n) == ItensDe(b, pedidoId, n)
  {
    if n > 0 {
      ItensDeFrame(a, b, pedidoId, n - 1);
    }
  }

  /** No row below `n` names the order: its loaded list is empty. */
  lemma {:induction false} ItensDeNone(itens: map<nat, Item>, pedidoId: nat, n: nat)
    requires forall k :: k in itens && k < n ==> itens[k].pedidoId != Some(pedidoId)
    ensures ItensDe(itens, pedidoId, n) == []
  {
    if n > 0 {
      ItensDeNone(itens, pedidoId, n - 1);
    }
  }

  /** Rows `s` of the order stored under the consecutive ids from `n0` come last in its loaded
      list, in their own order. */
  lemma {:induction false} ItensDeRange(itens: map<nat, Item>, pedidoId: nat, n0: nat, s: seq<Item>, k: nat)
    requires k <= |s|
    requires forall j :: 0 <= j < |s| ==> s[j].pedidoId == Some(pedidoId)
    requires forall i :: n0 <= i < n0 + |s| ==> i in itens && itens[i] == s[i - n0]
    ensures ItensDe(itens, pedidoId, n0 + k) == ItensDe(itens, pedidoId, n0) + s[..k]
  {
    if k > 0 {
      var last := s[k - 1];
      ItensDeRange(itens, pedidoId, n0, s, k - 1);
      assert s[..k] == s[..k - 1] + [last];
    }
  }

  /** The row an item entity is stored as, once its product (with an id), quantity and
      unit price are set. */
  function RowOf(id: nat, pedidoId: Option<nat>, p: Product, q: int32): Item
    requires p.id.Some?
  {
    Item(Some(id), pedidoId, p.id.value, q, p.preco, p.preco * q)
  }

  /** Every stored item carries its own key as id, and that key was handed out already. */
  ghost predicate KeyedItems(itens: map<nat, Item>, nextId: nat)
  {
    forall k :: k in itens ==> itens[k].id == Some(k) && k < nextId
  }

  class ItemPedidoService {
    /** The product service it looks prices up in. */
    const produtoService: ProdutoService
    /** The item table, by id. */
    var itens: map<nat, Item>
    /** The next id the identity column hands out. */
    var nextId: nat

    /** The product service is well formed and so is the item table. */
    ghost predicate Valid()
      reads this, produtoService
    {
      produtoService.Valid() && KeyedItems(itens, nextId)
    }

    constructor(produtoService: ProdutoService)
      requires produtoService.Valid()
      ensures Valid()
      ensures this.produtoService == produtoService && itens == map[] && nextId == 1
    {
      this.produtoService := produtoService;
      itens := map[];
      nextId := 1;
    }

    /** `buscarPorId`: the stored item, or `ResourceNotFoundException("ItemPedido", id)`. */
    method BuscarPorId(id: nat) returns (r: Result<Item, Error>)
      requires Valid()
      ensures r.Ok? <==> id in itens
      ensures r.Ok? ==> r.value == itens[id] && r.value.id == Some(id)
      ensures r.Err? ==> r.error == NotFound(ItemPedido, id)
    {
      if id in itens {
        r := Ok(itens[id]);
      } else {
        r := Err(NotFound(ItemPedido, id));
      }
    }

    /** `buscarPorPedido`: exactly the stored items whose order id is `pedidoId`. */
    method BuscarPorPedido(pedidoId: nat) returns (r: map<nat, Item>)
      ensures forall k :: k in r <==> k in itens && itens[k].pedidoId == Some(pedidoId)
      ensures forall k :: k in r ==> r[k] == itens[k]
    {
      r := map k | k in itens && itens[k].pedidoId == Some(pedidoId) :: itens[k];
    }

    /** `buscarPorProduto`: exactly the stored items that reference `produtoId`. */
    method BuscarPorProduto(produtoId: nat) returns (r: map<nat, Item>)
      ensures forall k :: k in r <==> k in itens && itens[k].produtoId == produtoId
      ensures forall k :: k in r ==> r[k] == itens[k]
    {
      r := map k | k in itens && itens[k].produtoId == produtoId :: itens[k];
    }

    /** `salvar(item)`: refuses an item without a product (or whose product has no id), then a
        non-positive quantity, then a product that is not stored; otherwise re-reads the product,
        snapshots its price into the item, recomputes the item total and stores the item,
        overwriting the row of a stored id or inserting under a fresh one. Products are never
        changed, and the stored row is found again by order and by product. */
    method Salvar(e: ItemPedidoEntity) returns (r: Result<Item, Error>)
      requires Valid()
      requires e.quantidade.Some?
      modifies this, e
      ensures Valid()
      ensures old(e.produto).None? || old(e.produto).value.id.None? ==>
                r == Err(BadRequest(ProductNotInformed))
      ensures old(e.produto).Some? && old(e.produto).value.id.Some? && old(e.quantidade).value <= 0 ==>
                r == Err(BadRequest(NonPositiveQuantity))
      ensures old(e.produto).Some? && old(e.produto).value.id.Some? && old(e.quantidade).value > 0 ==>
                var pid := old(e.produto).value.id.value;
                && (pid !in produtoService.produtos ==> r == Err(NotFound(Produto, pid)))
                && (pid in produtoService.produtos ==>
                      r.Ok? && r.value.id.Some? && r.value == RowOf(r.value.id.value, old(e.pedidoId), produtoService.produtos[pid], old(e.quantidade).value))
      ensures r.Err? ==> itens == old(itens) && nextId == old(nextId)
      ensures r.Err? ==> e.produto == old(e.produto) && e.precoUnitario == old(e.precoUnitario)
                         && e.valorTotal == old(e.valorTotal) && e.id == old(e.id)
      ensures r.Ok? ==>
                && r.value.quantidade > 0
                && r.value.valorTotal == r.value.precoUnitario * r.value.quantidade
                && r.value.id.Some?
                && itens == old(itens)[r.value.id.value := r.value]
                && (r.value.pedidoId.Some? ==> r.value.id.value in PorPedido(itens, r.value.pedidoId.value))
                && r.value.id.value in PorProduto(itens, r.value.produtoId)
      ensures r.Ok? ==>
                && e.id == r.value.id && e.pedidoId == r.value.pedidoId && e.TotalOk()
                && e.produto == Some(produtoService.produtos[r.value.produtoId])
                && e.quantidade == Some(r.value.quantidade)
                && e.precoUnitario == Some(r.value.precoUnitario)
                && e.valorTotal == r.value.valorTotal
      ensures r.Ok? && old(e.id).Some? && old(e.id).value in old(itens) ==>
                r.value.id == old(e.id) && nextId == old(nextId)
      ensures r.Ok? && !(old(e.id).Some? && old(e.id).value in old(itens)) ==>
                r.value.id == Some(old(nextId)) && old(nextId) !in old(itens) && nextId == old(nextId) + 1
    {
      if e.produto.None? || e.produto.value.id.None? {
        return Err(BadRequest(ProductNotInformed));
      }
      if e.quantidade.value <= 0 {
        return Err(BadRequest(NonPositiveQuantity));
      }
      var found := produtoService.BuscarPorId(e.produto.value.id.value);
      if found.Err? {
        return Err(found.error);
      }
      var p := found.value;
      e.SetProduto(Some(p));
      e.SetPrecoUnitario(Some(p.preco));
      e.CalcularValorTotal();
      var id: nat;
      if e.id.Some? && e.id.value in itens {
        id := e.id.value;
      } else {
        id := nextId;
        nextId := nextId + 1;
      }
      e.SetId(Some(id));
      var row := RowOf(id, e.pedidoId, p, e.quantidade.value);
      itens := itens[id := row];
      r := Ok(row);
    }
  }
}
