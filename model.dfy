/** The domain-model aggregate (`model.Pedido` and `model.ItemPedido`): the same total
    bookkeeping as the persistence entities, but an item refers to its order as an object
    (a two-way association) instead of by id. */
module Model {
  import opened Results
  import opened JavaInt
  import opened Money
  import opened Domain

  class ItemPedido {
    var id: Option<nat>
    /** The owning order, the many-to-one side of the association. */
    var pedido: Pedido?
    var produto: Option<Product>
    var quantidade: Option<int32>
    var precoUnitario: Option<int>
    var valorTotal: int

    /** The item invariant every constructor and setter re-establishes: total = unit price x
        quantity, or zero when either is null. */
    ghost predicate TotalOk()
      reads this
    {
      valorTotal == LineTotal(precoUnitario, quantidade)
    }

    /** The no-argument constructor: quantity 0, unit price 0, total 0. */
    constructor()
      ensures TotalOk()
      ensures id == None && pedido == null && produto == None
      ensures quantidade == Some(0) && precoUnitario == Some(0) && valorTotal == 0
    {
      id := None;
      pedido := null;
      produto := None;
      quantidade := Some(0);
      precoUnitario := Some(0);
      valorTotal := 0;
    }

    /** `(produto, quantidade)`: the unit price is taken from the product. */
    constructor ComProduto(p: Product, q: Option<int32>)
      ensures TotalOk()
      ensures id == None && pedido == null && produto == Some(p)
      ensures quantidade == q && precoUnitario == Some(p.preco)
    {
      id := None;
      pedido := null;
      produto := Some(p);
      quantidade := q;
      precoUnitario := Some(p.preco);
      valorTotal := LineTotal(Some(p.preco), q);
    }

    /** The five-argument constructor, which attaches the item to the given order
        (on the item side only). */
    constructor Completo(id: Option<nat>, pedido: Pedido?, p: Option<Product>,
                         q: Option<int32>, preco: Option<int>)
      ensures TotalOk()
      ensures this.id == id && this.pedido == pedido && produto == p
      ensures quantidade == q && precoUnitario == preco
    {
      this.id := id;
      this.pedido := pedido;
      produto := p;
      quantidade := q;
      precoUnitario := preco;
      valorTotal := LineTotal(preco, q);
    }

    /** `calcularValorTotal`. */
    method CalcularValorTotal()
      modifies this
      ensures TotalOk()
      ensures id == old(id) && pedido == old(pedido) && produto == old(produto)
      ensures quantidade == old(quantidade) && precoUnitario == old(precoUnitario)
    {
      if quantidade.Some? && precoUnitario.Some? {
        valorTotal := precoUnitario.value * quantidade.value;
      } else {
        valorTotal := 0;
      }
    }

    method SetId(v: Option<nat>)
      modifies this
      ensures id == v
      ensures pedido == old(pedido) && produto == old(produto) && quantidade == old(quantidade)
      ensures precoUnitario == old(precoUnitario) && valorTotal == old(valorTotal)
    {
      id := v;
    }

    method SetPedido(v: Pedido?)
      modifies this
      ensures pedido == v
      ensures id == old(id) && produto == old(produto) && quantidade == old(quantidade)
      ensures precoUnitario == old(precoUnitario) && valorTotal == old(valorTotal)
    {
      pedido := v;
    }

    /** `setProduto`: a non-null product also snapshots its price and recomputes the total;
        a null product leaves price and total as they were. */
    method SetProduto(p: Option<Product>)
      modifies this
      ensures produto == p
      ensures p.Some? ==> precoUnitario == Some(p.value.preco) && TotalOk()
      ensures p.None? ==> precoUnitario == old(precoUnitario) && valorTotal == old(valorTotal)
      ensures id == old(id) && pedido == old(pedido) && quantidade == old(quantidade)
    {
      produto := p;
      if p.Some? {
        precoUnitario := Some(p.value.preco);
        CalcularValorTotal();
      }
    }

    method SetQuantidade(q: Option<int32>)
      modifies this
      ensures TotalOk()
      ensures quantidade == q
      ensures id == old(id) && pedido == old(pedido) && produto == old(produto)
      ensures precoUnitario == old(precoUnitario)
    {
      quantidade := q;
      CalcularValorTotal();
    }

    method SetPrecoUnitario(preco: Option<int>)
      modifies this
      ensures TotalOk()
      ensures precoUnitario == preco
      ensures id == old(id) && pedido == old(pedido) && produto == old(produto)
      ensures quantidade == old(quantidade)
    {
      precoUnitario := preco;
      CalcularValorTotal();
    }

    /** `equals`: identity, or both ids equal (two unsaved items, both with a null id, are equal). */
    predicate Equals(o: ItemPedido?)
      reads this, o
    {
      if o == this then true
      else if o == null then false
      else o.id == id
    }

    /** `hashCode`, i.e. `Objects.hash(id)`. */
    function HashCode(): int32
      reads this
    {
      IdHash(id)
    }
  }

  /** `equals` of items is id equality, an equivalence consistent with `hashCode`. */
  lemma ItemEqualsById(a: ItemPedido, b: ItemPedido, c: ItemPedido)
    ensures a.Equals(b) <==> a.id == b.id
    ensures !a.Equals(null)
    ensures a.Equals(b) ==> b.Equals(a) && a.HashCode() == b.HashCode()
    ensures a.Equals(b) && b.Equals(c) ==> a.Equals(c)
  {
  }

  /** Every item of `itens` points back at order `p`. */
  ghost predicate PointAt(itens: seq<ItemPedido>, p: Pedido)
    reads itens
  {
    forall i :: 0 <= i < |itens| ==> itens[i].pedido == p
  }

  /** Removing one position keeps every remaining item pointing back at `p`. */
  lemma PointAtRemove(itens: seq<ItemPedido>, k: nat, p: Pedido)
    requires k < |itens| && PointAt(itens, p)
    ensures PointAt(itens[..k] + itens[k + 1..], p)
  {
    var r := itens[..k] + itens[k + 1..];
    forall i | 0 <= i < |r| ensures r[i].pedido == p {
      assert r[i] == itens[if i < k then i else i + 1];
    }
  }

  /** The item totals of a list of items, in list order. */
  function TotalsOf(itens: seq<ItemPedido>): (r: seq<int>)
    reads itens
  {
    seq(|itens|, i requires 0 <= i < |itens| reads itens => itens[i].valorTotal)
  }

  /** Where `List.remove(item)` removes: the first position whose item `equals` the argument,
      i.e. has the same id; `|itens|` when there is none. */
  function IndexById(itens: seq<ItemPedido>, id: Option<nat>): (r: nat)
    reads itens
    ensures r <= |itens|
    ensures r < |itens| ==> itens[r].id == id
    ensures forall j :: 0 <= j < r ==> itens[j].id != id
  {
    if |itens| == 0 then 0
    else if itens[0].id == id then 0
    else 1 + IndexById(itens[1..], id)
  }

  class Pedido {
    var id: Option<nat>
    var cliente: string
    var observacao: string
    var valorTotal: int
    var status: Status
    var itens: seq<ItemPedido>

    /** The order invariant `recalcularValorTotal` establishes: the total is the sum of the
        item totals. */
    ghost predicate TotalOk()
      reads this, itens
    {
      valorTotal == Sum(TotalsOf(itens))
    }

    /** Both sides of the association agree: every listed item points back at this order. */
    ghost predicate Owned()
      reads this, itens
    {
      PointAt(itens, this)
    }

    /** The no-argument constructor: total zero, status PENDENTE, no items. */
    constructor()
      ensures TotalOk()
      ensures id == None && valorTotal == 0 && status == PENDENTE && itens == []
    {
      id := None;
      cliente := "";
      observacao := "";
      valorTotal := 0;
      status := PENDENTE;
      itens := [];
    }

    constructor ComCliente(cliente: string, observacao: string)
      ensures TotalOk()
      ensures id == None && this.cliente == cliente && this.observacao == observacao
      ensures valorTotal == 0 && status == PENDENTE && itens == []
    {
      id := None;
      this.cliente := cliente;
      this.observacao := observacao;
      valorTotal := 0;
      status := PENDENTE;
      itens := [];
    }

    /** The all-fields constructor: the given total is stored as is, whatever the items. */
    constructor Completo(id: Option<nat>, cliente: string, observacao: string,
                         valorTotal: int, status: Status)
      ensures this.id == id && this.cliente == cliente && this.observacao == observacao
      ensures this.valorTotal == valorTotal && this.status == status && itens == []
    {
      this.id := id;
      this.cliente := cliente;
      this.observacao := observacao;
      this.valorTotal := valorTotal;
      this.status := status;
      itens := [];
    }

    /** `recalcularValorTotal`: the reduce of the item totals from zero. */
    method RecalcularValorTotal()
      modifies this
      ensures TotalOk()
      ensures itens == old(itens) && id == old(id) && status == old(status)
      ensures cliente == old(cliente) && observacao == old(observacao)
    {
      valorTotal := Sum(TotalsOf(itens));
    }

    /** `setItens`: replaces the list and recomputes the total. */
    method SetItens(novos: seq<ItemPedido>)
      modifies this
      ensures TotalOk()
      ensures itens == novos && id == old(id) && status == old(status)
      ensures cliente == old(cliente) && observacao == old(observacao)
    {
      itens := novos;
      RecalcularValorTotal();
    }

    /** `adicionarItem`: appends the item, points it at this order and recomputes the total,
        which grows by exactly the item's total. */
    method AdicionarItem(item: ItemPedido)
      modifies this, item
      ensures TotalOk()
      ensures itens == old(itens) + [item]
      ensures valorTotal == old(Sum(TotalsOf(itens))) + item.valorTotal
      ensures old(Owned()) ==> Owned()
      ensures item.pedido == this && item.valorTotal == old(item.valorTotal)
      ensures item.id == old(item.id) && item.quantidade == old(item.quantidade)
      ensures item.precoUnitario == old(item.precoUnitario) && item.produto == old(item.produto)
      ensures id == old(id) && status == old(status)
      ensures cliente == old(cliente) && observacao == old(observacao)
    {
      ghost var before := TotalsOf(itens);
      itens := itens + [item];
      item.SetPedido(this);
      assert TotalsOf(itens) == before + [item.valorTotal];
      Money.SumAppend(before, item.valorTotal);
      RecalcularValorTotal();
    }

    /** `removerItem`: `List.remove` drops the first item equal to the argument (same id,
        which need not be the argument itself); the argument is detached from any order and the
        total drops by the removed item's total. */
    method RemoverItem(item: ItemPedido)
      modifies this, item
      ensures TotalOk()
      ensures var k := old(IndexById(itens, item.id));
              && (k == |old(itens)| ==> itens == old(itens) && valorTotal == old(Sum(TotalsOf(itens))))
              && (k < |old(itens)| ==>
                    && itens == old(itens)[..k] + old(itens)[k + 1..]
                    && valorTotal == old(Sum(TotalsOf(itens))) - old(itens[k].valorTotal))
      ensures old(Owned()) && item !in itens ==> Owned()
      ensures item.pedido == null && item.valorTotal == old(item.valorTotal) && item.id == old(item.id)
      ensures item.quantidade == old(item.quantidade)
      ensures item.precoUnitario == old(item.precoUnitario) && item.produto == old(item.produto)
      ensures id == old(id) && status == old(status)
      ensures cliente == old(cliente) && observacao == old(observacao)
    {
      var k := RemoverDaLista(item.id);
      ghost var kept := TotalsOf(itens);
      item.SetPedido(null);
      assert TotalsOf(itens) == kept;
      RecalcularValorTotal();
    }

    /** `itens.remove(item)`: drops the first item with the given id, if any; the items
        themselves and the stored total are untouched. */
    method RemoverDaLista(itemId: Option<nat>) returns (k: nat)
      modifies this
      ensures k == old(IndexById(itens, itemId))
      ensures k == |old(itens)| ==> itens == old(itens)
      ensures k < |old(itens)| ==>
                && itens == old(itens)[..k] + old(itens)[k + 1..]
                && Sum(TotalsOf(itens)) == old(Sum(TotalsOf(itens))) - old(itens[k].valorTotal)
      ensures old(Owned()) ==> Owned()
      ensures id == old(id) && status == old(status) && valorTotal == old(valorTotal)
      ensures cliente == old(cliente) && observacao == old(observacao)
    {
      ghost var before := TotalsOf(itens);
      k := IndexById(itens, itemId);
      if k < |itens| {
        if Owned() {
          PointAtRemove(itens, k, this);
        }
        itens := itens[..k] + itens[k + 1..];
        assert TotalsOf(itens) == before[..k] + before[k + 1..];
        Money.SumRemove(before, k);
      }
    }

    /** `equals`: identity, or both ids equal. */
    predicate Equals(o: Pedido?)
      reads this, o
    {
      if o == this then true
      else if o == null then false
      else o.id == id
    }

    /** `hashCode`, i.e. `Objects.hash(id)`. */
    function HashCode(): int32
      reads this
    {
      IdHash(id)
    }
  }

  /** `equals` of orders is id equality, an equivalence consistent with `hashCode`. */
  lemma OrderEqualsById(a: Pedido, b: Pedido, c: Pedido)
    ensures a.Equals(b) <==> a.id == b.id
    ensures !a.Equals(null)
    ensures a.Equals(b) ==> b.Equals(a) && a.HashCode() == b.HashCode()
    ensures a.Equals(b) && b.Equals(c) ==> a.Equals(c)
  {
  }
}
