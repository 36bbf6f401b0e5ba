/** The persistence-layer aggregate (`entity.PedidoEntity` and `entity.ItemPedidoEntity`):
    an item keeps its total equal to unit price x quantity through every setter, and an order
    keeps its total equal to the sum of its items' totals through every list operation. */
module Entity {
  import opened Results
  import opened JavaInt
  import opened Money
  import opened Domain

  class ItemPedidoEntity {
    var id: Option<nat>
    /** The owning order's id, a plain column (no object reference). */
    var pedidoId: Option<nat>
    var produto: Option<Product>
    var quantidade: Option<int32>
    var precoUnitario: Option<int>
    var valorTotal: int

    /** The item invariant every constructor and setter re-establishes: total = unit price x
        quantity, or zero when either is null. */
    ghost predicate TotalOk()
      reads this
    {
      valorTotal == LineTotal(precoUnitario, quantidade)
    }

    /** The no-argument constructor: quantity 0, unit price 0, total 0. */
    constructor()
      ensures TotalOk()
      ensures id == None && pedidoId == None && produto == None
      ensures quantidade == Some(0) && precoUnitario == Some(0) && valorTotal == 0
    {
      id := None;
      pedidoId := None;
      produto := None;
      quantidade := Some(0);
      precoUnitario := Some(0);
      valorTotal := 0;
    }

    /** `(produto, quantidade)`: the unit price is taken from the product. */
    constructor ComProduto(p: Product, q: Option<int32>)
      ensures TotalOk()
      ensures id == None && pedidoId == None && produto == Some(p)
      ensures quantidade == q && precoUnitario == Some(p.preco)
    {
      id := None;
      pedidoId := None;
      produto := Some(p);
      quantidade := q;
      precoUnitario := Some(p.preco);
      valorTotal := LineTotal(Some(p.preco), q);
    }

    /** The five-argument constructor. Its order argument is never stored: the item
        comes out with no owning order. */
    constructor Completo(id: Option<nat>, pedido: PedidoEntity?, p: Option<Product>,
                         q: Option<int32>, preco: Option<int>)
      ensures TotalOk()
      ensures this.id == id && pedidoId == None && produto == p
      ensures quantidade == q && precoUnitario == preco
    {
      this.id := id;
      pedidoId := None;
      produto := p;
      quantidade := q;
      precoUnitario := preco;
      valorTotal := LineTotal(preco, q);
    }

    /** `calcularValorTotal`. */
    method CalcularValorTotal()
      modifies this
      ensures TotalOk()
      ensures id == old(id) && pedidoId == old(pedidoId) && produto == old(produto)
      ensures quantidade == old(quantidade) && precoUnitario == old(precoUnitario)
    {
      if quantidade.Some? && precoUnitario.Some? {
        valorTotal := precoUnitario.value * quantidade.value;
      } else {
        valorTotal := 0;
      }
    }

    method SetId(v: Option<nat>)
      modifies this
      ensures id == v
      ensures pedidoId == old(pedidoId) && produto == old(produto) && quantidade == old(quantidade)
      ensures precoUnitario == old(precoUnitario) && valorTotal == old(valorTotal)
    {
      id := v;
    }

    method SetPedidoId(v: Option<nat>)
      modifies this
      ensures pedidoId == v
      ensures id == old(id) && produto == old(produto) && quantidade == old(quantidade)
      ensures precoUnitario == old(precoUnitario) && valorTotal == old(valorTotal)
    {
      pedidoId := v;
    }

    /** `setProduto`: a non-null product also snapshots its price and recomputes the total;
        a null product leaves price and total as they were. */
    method SetProduto(p: Option<Product>)
      modifies this
      ensures produto == p
      ensures p.Some? ==> precoUnitario == Some(p.value.preco) && TotalOk()
      ensures p.None? ==> precoUnitario == old(precoUnitario) && valorTotal == old(valorTotal)
      ensures id == old(id) && pedidoId == old(pedidoId) && quantidade == old(quantidade)
    {
      produto := p;
      if p.Some? {
        precoUnitario := Some(p.value.preco);
        CalcularValorTotal();
      }
    }

    method SetQuantidade(q: Option<int32>)
      modifies this
      ensures TotalOk()
      ensures quantidade == q
      ensures id == old(id) && pedidoId == old(pedidoId) && produto == old(produto)
      ensures precoUnitario == old(precoUnitario)
    {
      quantidade := q;
      CalcularValorTotal();
    }

    method SetPrecoUnitario(preco: Option<int>)
      modifies this
      ensures TotalOk()
      ensures precoUnitario == preco
      ensures id == old(id) && pedidoId == old(pedidoId) && produto == old(produto)
      ensures quantidade == old(quantidade)
    {
      precoUnitario := preco;
      CalcularValorTotal();
    }

    /** `setValorTotal`: the one setter that does not keep `TotalOk`. */
    method SetValorTotal(v: int)
      modifies this
      ensures valorTotal == v
      ensures id == old(id) && pedidoId == old(pedidoId) && produto == old(produto)
      ensures quantidade == old(quantidade) && precoUnitario == old(precoUnitario)
    {
      valorTotal := v;
    }

    /** `equals`: identity, or both ids equal (two unsaved items, both with a null id, are equal). */
    predicate Equals(o: ItemPedidoEntity?)
      reads this, o
    {
      if o == this then true
      else if o == null then false
      else o.id == id
    }

    /** `hashCode`, i.e. `Objects.hash(id)`. */
    function HashCode(): int32
      reads this
    {
      IdHash(id)
    }
  }

  /** `equals` of items is id equality, an equivalence consistent with `hashCode`. */
  lemma ItemEqualsById(a: ItemPedidoEntity, b: ItemPedidoEntity, c: ItemPedidoEntity)
    ensures a.Equals(b) <==> a.id == b.id
    ensures !a.Equals(null)
    ensures a.Equals(b) ==> b.Equals(a) && a.HashCode() == b.HashCode()
    ensures a.Equals(b) && b.Equals(c) ==> a.Equals(c)
  {
  }

  /** The item totals of a list of items, in list order. */
  function TotalsOf(itens: seq<ItemPedidoEntity>): (r: seq<int>)
    reads itens
  {
    seq(|itens|, i requires 0 <= i < |itens| reads itens => itens[i].valorTotal)
  }

  /** Where `List.remove(item)` removes: the first position whose item `equals` the argument,
      i.e. has the same id; `|itens|` when there is none. */
  function IndexById(itens: seq<ItemPedidoEntity>, id: Option<nat>): (r: nat)
    reads itens
    ensures r <= |itens|
    ensures r < |itens| ==> itens[r].id == id
    ensures forall j :: 0 <= j < r ==> itens[j].id != id
  {
    if |itens| == 0 then 0
    else if itens[0].id == id then 0
    else 1 + IndexById(itens[1..], id)
  }

  class PedidoEntity {
    var id: Option<nat>
    var cliente: string
    var observacao: string
    var valorTotal: int
    var status: Status
    var itens: seq<ItemPedidoEntity>

    /** The order invariant `recalcularValorTotal` establishes: the total is the sum of the
        item totals. */
    ghost predicate TotalOk()
      reads this, itens
    {
      valorTotal == Sum(TotalsOf(itens))
    }

    /** The no-argument constructor: total zero, status PENDENTE, no items. */
    constructor()
      ensures TotalOk()
      ensures id == None && valorTotal == 0 && status == PENDENTE && itens == []
    {
      id := None;
      cliente := "";
      observacao := "";
      valorTotal := 0;
      status := PENDENTE;
      itens := [];
    }

    constructor ComCliente(cliente: string, observacao: string)
      ensures TotalOk()
      ensures id == None && this.cliente == cliente && this.observacao == observacao
      ensures valorTotal == 0 && status == PENDENTE && itens == []
    {
      id := None;
      this.cliente := cliente;
      this.observacao := observacao;
      valorTotal := 0;
      status := PENDENTE;
      itens := [];
    }

    /** The all-fields constructor: the given total is stored as is, whatever the items. */
    constructor Completo(id: Option<nat>, cliente: string, observacao: string,
                         valorTotal: int, status: Status)
      ensures this.id == id && this.cliente == cliente && this.observacao == observacao
      ensures this.valorTotal == valorTotal && this.status == status && itens == []
    {
      this.id := id;
      this.cliente := cliente;
      this.observacao := observacao;
      this.valorTotal := valorTotal;
      this.status := status;
      itens := [];
    }

    /** `recalcularValorTotal`: the reduce of the item totals from zero. */
    method RecalcularValorTotal()
      modifies this
      ensures TotalOk()
      ensures itens == old(itens) && id == old(id) && status == old(status)
      ensures cliente == old(cliente) && observacao == old(observacao)
    {
      valorTotal := Sum(TotalsOf(itens));
    }

    /** `setItens`: replaces the list and recomputes the total. */
    method SetItens(novos: seq<ItemPedidoEntity>)
      modifies this
      ensures TotalOk()
      ensures itens == novos && id == old(id) && status == old(status)
      ensures cliente == old(cliente) && observacao == old(observacao)
    {
      itens := novos;
      RecalcularValorTotal();
    }

    /** `adicionarItem`: appends the item, points it at this order and recomputes the total,
        which grows by exactly the item's total. */
    method AdicionarItem(item: ItemPedidoEntity)
      modifies this, item
      ensures TotalOk()
      ensures itens == old(itens) + [item]
      ensures valorTotal == old(Sum(TotalsOf(itens))) + item.valorTotal
      ensures item.pedidoId == id && item.valorTotal == old(item.valorTotal)
      ensures item.id == old(item.id) && item.quantidade == old(item.quantidade)
      ensures item.precoUnitario == old(item.precoUnitario) && item.produto == old(item.produto)
      ensures id == old(id) && status == old(status)
      ensures cliente == old(cliente) && observacao == old(observacao)
    {
      ghost var before := TotalsOf(itens);
      itens := itens + [item];
      item.SetPedidoId(id);
      assert TotalsOf(itens) == before + [item.valorTotal];
      Money.SumAppend(before, item.valorTotal);
      RecalcularValorTotal();
    }

    /** `removerItem`: `List.remove` drops the first item equal to the argument (same id,
        which need not be the argument itself); the argument is detached from any order and the
        total drops by the removed item's total. */
    method RemoverItem(item: ItemPedidoEntity)
      modifies this, item
      ensures TotalOk()
      ensures var k := old(IndexById(itens, item.id));
              && (k == |old(itens)| ==> itens == old(itens) && valorTotal == old(Sum(TotalsOf(itens))))
              && (k < |old(itens)| ==>
                    && itens == old(itens)[..k] + old(itens)[k + 1..]
                    && valorTotal == old(Sum(TotalsOf(itens))) - old(itens[k].valorTotal))
      ensures item.pedidoId == None && item.valorTotal == old(item.valorTotal) && item.id == old(item.id)
      ensures item.quantidade == old(item.quantidade)
      ensures item.precoUnitario == old(item.precoUnitario) && item.produto == old(item.produto)
      ensures id == old(id) && status == old(status)
      ensures cliente == old(cliente) && observacao == old(observacao)
    {
      ghost var before := TotalsOf(itens);
      var k := IndexById(itens, item.id);
      if k < |itens| {
        ghost var removed := itens[k].valorTotal;
        itens := itens[..k] + itens[k + 1..];
        item.SetPedidoId(None);
        assert TotalsOf(itens) == before[..k] + before[k + 1..];
        Money.SumRemove(before, k);
      } else {
        item.SetPedidoId(None);
        assert TotalsOf(itens) == before;
      }
      RecalcularValorTotal();
    }

    /** `equals`: identity, or both ids equal. */
    predicate Equals(o: PedidoEntity?)
      reads this, o
    {
      if o == this then true
      else if o == null then false
      else o.id == id
    }

    /** `hashCode`, i.e. `Objects.hash(id)`. */
    function HashCode(): int32
      reads this
    {
      IdHash(id)
    }
  }

  /** `equals` of orders is id equality, an equivalence consistent with `hashCode`. */
  lemma OrderEqualsById(a: PedidoEntity, b: PedidoEntity, c: PedidoEntity)
    ensures a.Equals(b) <==> a.id == b.id
    ensures !a.Equals(null)
    ensures a.Equals(b) ==> b.Equals(a) && a.HashCode() == b.HashCode()
    ensures a.Equals(b) && b.Equals(c) ==> a.Equals(c)
  {
  }
}
