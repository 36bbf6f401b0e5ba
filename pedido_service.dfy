/** `PedidoService`: order creation, update, status change and deletion, each reconciling
    the product stock in the same transaction. A failing operation leaves every repository as
    it found it (the `@Transactional` rollback). */
module Pedidos {
  import opened Results
  import opened JavaInt
  import opened Money
  import opened Domain
  import opened StatusRules
  import opened Stock
  import opened Entity
  import opened Produtos
  import opened ItensPedido
  import opened PedidoSpec

  class PedidoService {
    const produtoService: ProdutoService
    const itemService: ItemPedidoService
    /** The order table, by id: each order's own columns. Its items are the rows of the item
        table that carry its id. */
    var pedidos: map<nat, OrderRow>
    /** The next id the identity column hands out. */
    var nextId: nat

    /** Both services share one product service, every repository is well formed, and every
        stored order row carries its own key as id, below the next id. */
    ghost predicate Valid()
      reads this, produtoService, itemService
    {
      && Repos()
      && Tabela(pedidos, nextId)
    }

    /** The repository part of `Valid`: both services share one product service and are well formed. */
    ghost predicate Repos()
      reads produtoService, itemService
    {
      itemService.produtoService == produtoService && itemService.Valid()
    }

    /** Everything a transaction can change. */
    ghost function Estado(): Snapshot
      reads this, produtoService, itemService
    {
      Snapshot(produtoService.produtos, produtoService.nextId, itemService.itens, itemService.nextId, pedidos, nextId)
    }

    constructor(produtoService: ProdutoService, itemService: ItemPedidoService)
      requires itemService.produtoService == produtoService && itemService.Valid()
      ensures Valid()
      ensures this.produtoService == produtoService && this.itemService == itemService
      ensures pedidos == map[] && nextId == 1
    {
      this.produtoService := produtoService;
      this.itemService := itemService;
      pedidos := map[];
      nextId := 1;
    }

    /** `buscarPorId`: the stored order, or `ResourceNotFoundException("Pedido", id)`. The entity
        has the order's row and, through the lazy `itens` association, the item rows that carry
        its id, in id order: each of them is a stored row of this order, and every stored row of
        this order is among them. */
    method BuscarPorId(id: nat) returns (r: Result<Order, Error>)
      requires Valid()
      ensures r.Ok? <==> id in pedidos
      ensures r.Ok? ==> r.value == Carregado(Estado(), id)
      ensures r.Ok? ==> r.value.id == id && r.value.Row() == pedidos[id]
      ensures r.Ok? ==>
                && (forall j :: 0 <= j < |r.value.itens| ==>
                      var x := r.value.itens[j];
                      x.id.Some? && x.id.value in itemService.itens && itemService.itens[x.id.value] == x
                      && x.pedidoId == Some(id))
                && (forall k :: k in itemService.itens && itemService.itens[k].pedidoId == Some(id) ==>
                      itemService.itens[k] in r.value.itens)
      ensures r.Err? ==> r.error == NotFound(Pedido, id)
    {
      if id in pedidos {
        var row := pedidos[id];
        var itens := ItensDe(itemService.itens, id, itemService.nextId);
        ItensDeSpec(itemService.itens, id, itemService.nextId);
        r := Ok(Order(row.id, row.cliente, row.observacao, row.valorTotal, row.status, itens));
      } else {
        r := Err(NotFound(Pedido, id));
      }
    }

    /** One turn of the loop of `validarItensPedido`: the line's product is looked up, a fresh
        item entity gets the product and the quantity, the quantity is checked (positive, within
        stock), and the item takes the product's current price and recomputes its total. */
    method ValidarItem(l: Line) returns (r: Result<ItemPedidoEntity, Error>)
      requires produtoService.Valid()
      ensures r.Ok? <==> ItemCheck(produtoService.produtos, l).None?
      ensures r.Err? ==> r.error == ItemCheck(produtoService.produtos, l).value
      ensures r.Ok? ==>
                && fresh(r.value) && l.produtoId in produtoService.produtos
                && Describes(r.value, Priced(produtoService.produtos, None, l))
    {
      var found := produtoService.BuscarPorId(l.produtoId);
      if found.Err? {
        return Err(found.error);
      }
      var p := found.value;
      var item := new ItemPedidoEntity();
      item.SetProduto(Some(p));
      item.SetQuantidade(Some(l.quantidade));
      if l.quantidade <= 0 {
        return Err(BadRequest(NonPositiveQuantity));
      }
      if l.quantidade > p.quantidadeEstoque {
        return Err(BadRequest(InsufficientStock(p.nome)));
      }
      item.SetPrecoUnitario(Some(p.preco));
      item.CalcularValorTotal();
      r := Ok(item);
    }

    /** The loop of `validarItensPedido`: every line is checked against the same, unchanged stock
        and turned into a fresh item entity; the first failing line aborts. */
    method ValidarLinhas(linhas: seq<Line>) returns (r: Result<seq<ItemPedidoEntity>, Error>)
      requires produtoService.Valid()
      ensures r.Ok? <==> FirstInvalid(produtoService.produtos, linhas).None?
      ensures r.Err? ==> r.error == FirstInvalid(produtoService.produtos, linhas).value
      ensures r.Ok? ==>
                && AllValid(produtoService.produtos, linhas) && |r.value| == |linhas|
                && (forall j :: 0 <= j < |linhas| ==> fresh(r.value[j]))
                && (forall j, m :: 0 <= j < m < |linhas| ==> r.value[j] != r.value[m])
                && Descrevem(r.value, produtoService.produtos, linhas)
    {
      var c := produtoService.produtos;
      var itens: seq<ItemPedidoEntity> := [];
      for i := 0 to |linhas|
        invariant |itens| == i && Validados(c, linhas, i)
        invariant forall j :: 0 <= j < i ==> fresh(itens[j])
        invariant forall j, m :: 0 <= j < m < i ==> itens[j] != itens[m]
        invariant Descrevem(itens, c, linhas)
      {
        var v := ValidarItem(linhas[i]);
        if v.Err? {
          ValidadosFalha(c, linhas, i);
          return Err(v.error);
        }
        ValidadosStep(c, linhas, i);
        itens := itens + [v.value];
      }
      ValidadosDone(c, linhas);
      r := Ok(itens);
    }

    /** `validarItensPedido`: refuses an empty list, then checks each line against the current
        stock (product found, quantity positive, quantity within stock), building a fresh item
        entity per line priced from its product; the items are then set on the order, whose total
        becomes their sum. Nothing is stored and no stock changes. */
    method ValidarItensPedido(linhas: seq<Line>, pedido: PedidoEntity) returns (r: Outcome<Error>)
      requires Valid()
      modifies pedido
      ensures r.Fail? <==> |linhas| == 0 || FirstInvalid(produtoService.produtos, linhas).Some?
      ensures r.Fail? ==> r.error == CreateError(produtoService.produtos, linhas).value
      ensures r.Pass? ==>
                && AllValid(produtoService.produtos, linhas)
                && |pedido.itens| == |linhas|
                && (forall j :: 0 <= j < |linhas| ==> fresh(pedido.itens[j]))
                && (forall j, m :: 0 <= j < m < |linhas| ==> pedido.itens[j] != pedido.itens[m])
                && Descrevem(pedido.itens, produtoService.produtos, linhas)
                && pedido.TotalOk() && pedido.valorTotal == Sum(PricedTotals(produtoService.produtos, linhas))
      ensures pedido.id == old(pedido.id) && pedido.status == old(pedido.status)
      ensures pedido.cliente == old(pedido.cliente) && pedido.observacao == old(pedido.observacao)
    {
      if |linhas| == 0 {
        return Fail(BadRequest(EmptyItems));
      }
      var itens := ValidarLinhas(linhas);
      if itens.Err? {
        return Fail(itens.error);
      }
      pedido.SetItens(itens.value);
      pedido.RecalcularValorTotal();
      DescrevemTotais(pedido.itens, produtoService.produtos, linhas);
      r := Pass;
    }

    /** Turn `i` of the loop of `salvar` (after the order is stored): item `i` gets the order's
        id, is saved through the item service under a fresh id, and its quantity is taken off its
        product's stock, which may fail. The items after it are left as they were. */
    method GravarItem(pedidoId: nat, ents: seq<ItemPedidoEntity>, linhas: seq<Line>, i: nat)
      returns (r: Result<Item, Error>)
      requires Repos() && i < |ents|
      requires forall j, m :: 0 <= j < m < |ents| ==> ents[j] != ents[m]
      requires Pendentes(ents, linhas, i)
      requires linhas[i].produtoId in produtoService.produtos && linhas[i].quantidade > 0
      modifies produtoService, itemService, ents[i]
      ensures Repos() && Pendentes(ents, linhas, i + 1)
      ensures produtoService.nextId == old(produtoService.nextId)
      ensures var l := linhas[i];
              && (r.Ok? <==> Decrement(old(produtoService.produtos), l.produtoId, l.quantidade).Ok?)
              && (r.Err? ==> r.error == Decrement(old(produtoService.produtos), l.produtoId, l.quantidade).error)
      ensures r.Ok? ==>
                && Decrement(old(produtoService.produtos), linhas[i].produtoId, linhas[i].quantidade)
                     == Ok(produtoService.produtos)
                && r.value == Gravado(old(produtoService.produtos), pedidoId, linhas[i], old(itemService.nextId))
                && itemService.itens == old(itemService.itens)[old(itemService.nextId) := r.value]
                && itemService.nextId == old(itemService.nextId) + 1
    {
      var item := ents[i];
      item.SetPedidoId(Some(pedidoId));
      var s := itemService.Salvar(item);
      assert s.Ok?;
      var u := produtoService.AtualizarEstoque(item.produto.value.id.value, item.quantidade.value);
      if u.Fail? {
        return Err(u.error);
      }
      r := Ok(s.value);
    }

    /** The loop of `salvar` after the order is stored: the items are saved in list order,
        under consecutive fresh ids, each followed by its stock decrement; the first failing
        decrement aborts. On success the whole loop has run (`Gravados` over every line). */
    method GravarItens(pedidoId: nat, ents: seq<ItemPedidoEntity>, linhas: seq<Line>)
      returns (r: Result<seq<Item>, Error>)
      requires Repos()
      requires |ents| == |linhas| && AllValid(produtoService.produtos, linhas)
      requires Prontos(ents, linhas)
      modifies produtoService, itemService, ents
      ensures Repos()
      ensures produtoService.nextId == old(produtoService.nextId)
      ensures r.Ok? <==> DecrementAll(old(produtoService.produtos), linhas).Ok?
      ensures r.Err? ==> r.error == DecrementAll(old(produtoService.produtos), linhas).error
      ensures r.Ok? ==>
                && |r.value| == |linhas|
                && itemService.nextId == old(itemService.nextId) + |linhas|
                && Gravados(old(produtoService.produtos), old(itemService.itens), old(itemService.nextId),
                            pedidoId, linhas, produtoService.produtos, itemService.itens, r.value)
    {
      var c0 := produtoService.produtos;
      var n0 := itemService.nextId;
      ghost var i0 := itemService.itens;
      var salvos: seq<Item> := [];
      ghost var cat, tab := c0, i0;
      assert linhas[..0] == [];
      for i := 0 to |linhas|
        invariant Repos()
        invariant produtoService.nextId == old(produtoService.nextId)
        invariant |salvos| == i && itemService.nextId == n0 + i
        invariant produtoService.produtos == cat && itemService.itens == tab
        invariant Gravados(c0, i0, n0, pedidoId, linhas, cat, tab, salvos)
        invariant forall j, m :: 0 <= j < m < |ents| ==> ents[j] != ents[m]
        invariant Pendentes(ents, linhas, i)
      {
        var l := linhas[i];
        ghost var nxt := itemService.nextId;
        assert nxt == n0 + |salvos|;
        var s := GravarItem(pedidoId, ents, linhas, i);
        if s.Err? {
          GravadosErr(c0, i0, n0, pedidoId, linhas, cat, tab, salvos);
          return Err(s.error);
        }
        GravadosStep(c0, i0, n0, pedidoId, linhas, cat, tab, salvos, l, nxt, produtoService.produtos, s.value);
        salvos := salvos + [s.value];
        cat, tab := produtoService.produtos, itemService.itens;
      }
      GravadosDone(c0, i0, n0, pedidoId, linhas, cat, tab, salvos);
      r := Ok(salvos);
    }

    /** `salvar(request)`: a new order with status PENDENTE (the request's status and total are
        not used), its items checked and priced from the current stock, stored with fresh ids,
        and each product's stock lowered by the ordered quantity. The new state and the result
        are those of `Criar`, whose meaning `CriarSpec` states. */
    method Salvar(req: PedidoRequest) returns (r: Result<Order, Error>)
      requires Valid()
      modifies this, produtoService, itemService
      ensures Valid()
      ensures (Estado(), r) == Criar(old(Estado()), req)
    {
      ghost var s0 := Estado();
      var pedido := new PedidoEntity();
      pedido.cliente := req.cliente;
      pedido.observacao := req.observacao;
      pedido.valorTotal := req.valorTotal;
      var v := ValidarItensPedido(req.itens, pedido);
      if v.Fail? {
        return Err(v.error);
      }
      if req.status.None? {
        pedido.status := PENDENTE;
      }
      DescrevemCarries(pedido.itens, produtoService.produtos, req.itens);
      assert Estado() == s0;
      assert pedido.cliente == req.cliente && pedido.observacao == req.observacao && pedido.status == PENDENTE;
      r := Persistir(pedido, req.itens);
    }

    /** The storing half of `salvar`, for an order entity whose items passed
        `validarItensPedido`: the order takes the next id, then each item is saved and its
        quantity taken off the stock; a failing decrement rolls every repository back. The order
        row is written once its items are, which inside one transaction is not observable. */
    method Persistir(pedido: PedidoEntity, linhas: seq<Line>) returns (r: Result<Order, Error>)
      requires Valid()
      requires AllValid(produtoService.produtos, linhas) && Prontos(pedido.itens, linhas)
      requires pedido.valorTotal == Sum(PricedTotals(produtoService.produtos, linhas))
      modifies this, produtoService, itemService, pedido, pedido.itens
      ensures Valid()
      ensures (Estado(), r) == Gravacao(old(Estado()), linhas, old(pedido.cliente), old(pedido.observacao),
                                        old(pedido.status))
    {
      ghost var s0 := Estado();
      var cliente, observacao, total, status := pedido.cliente, pedido.observacao, pedido.valorTotal, pedido.status;
      var c0, i0, n0 := produtoService.produtos, itemService.itens, itemService.nextId;
      var id := nextId;
      var gravados := GravarItens(id, pedido.itens, linhas);
      if gravados.Err? {
        Desfazer(s0, c0, i0, n0);
        GravacaoErr(s0, linhas, cliente, observacao, status);
        return Err(gravados.error);
      }
      var o := Order(id, cliente, observacao, total, status, gravados.value);
      InserirPedido(s0, pedido, linhas, o);
      r := Ok(o);
    }

    /** The rollback of a transaction that began in state `s0` and changed only the product and
        item tables and the item id counter: they get back their values in `s0`. */
    method Desfazer(ghost s0: Snapshot, c0: Catalog, i0: map<nat, Item>, n0: nat)
      requires Repos() && Tabela(pedidos, nextId)
      requires c0 == s0.produtos && i0 == s0.itens && n0 == s0.itemNext
      requires KeyedCatalog(c0, produtoService.nextId) && KeyedItems(i0, n0)
      requires produtoService.nextId == s0.produtoNext && pedidos == s0.pedidos && nextId == s0.pedidoNext
      modifies produtoService, itemService
      ensures Valid() && Estado() == s0
    {
      produtoService.produtos := c0;
      itemService.itens := i0;
      itemService.nextId := n0;
    }

    /** `pedidoRepository.save` of the new order: it is stored under the next order id, which the
        entity takes; together with the completed item loop before it, this is `Gravacao`'s success. */
    method InserirPedido(ghost s0: Snapshot, pedido: PedidoEntity, linhas: seq<Line>, o: Order)
      requires Repos() && Tabela(s0.pedidos, s0.pedidoNext) && AllValid(s0.produtos, linhas)
      requires pedidos == s0.pedidos && nextId == s0.pedidoNext && o.id == nextId
      requires |o.itens| == |linhas| && o.valorTotal == Sum(PricedTotals(s0.produtos, linhas))
      requires Gravados(s0.produtos, s0.itens, s0.itemNext, o.id, linhas,
                        produtoService.produtos, itemService.itens, o.itens)
      requires produtoService.nextId == s0.produtoNext && itemService.nextId == s0.itemNext + |linhas|
      modifies this, pedido
      ensures Valid()
      ensures (Estado(), Ok(o)) == Gravacao(s0, linhas, o.cliente, o.observacao, o.status)
      ensures pedido.id == Some(o.id)
    {
      pedido.id := Some(o.id);
      pedidos := pedidos[o.id := o.Row()];
      nextId := nextId + 1;
      GravacaoOk(s0, linhas, o, Estado());
      GravacaoTabela(s0, linhas, o.cliente, o.observacao, o.status);
    }

    /** The stock-restoring loop shared by `atualizar` and `excluir`: each line's quantity is
        added back to its product, which is saved again. */
    method RestaurarEstoque(linhas: seq<Line>)
      requires Repos()
      modifies produtoService
      ensures Repos()
      ensures produtoService.produtos == RestoreAll(old(produtoService.produtos), linhas)
      ensures produtoService.nextId == old(produtoService.nextId)
    {
      var c0 := produtoService.produtos;
      for i := 0 to |linhas|
        invariant Repos()
        invariant produtoService.produtos == RestoreAll(c0, linhas[..i])
        invariant produtoService.nextId == old(produtoService.nextId)
      {
        var l := linhas[i];
        assert linhas[..i + 1][..i] == linhas[..i];
        if l.produtoId in produtoService.produtos {
          var p := produtoService.produtos[l.produtoId];
          var _ := produtoService.Salvar(p.(quantidadeEstoque := AddInt(p.quantidadeEstoque, l.quantidade)));
        }
      }
      assert linhas[..|linhas|] == linhas;
    }

    /** One turn of the new-items loop of `atualizar`: the line is checked against the current
        stock (product found, quantity positive, within stock), becomes a fresh item of the order
        priced from its product (never saved through the item service, so it has no id), and
        lowers its product's stock. */
    method AdicionarNovo(pedidoId: nat, l: Line) returns (r: Result<Item, Error>)
      requires Repos()
      modifies produtoService
      ensures Repos()
      ensures produtoService.nextId == old(produtoService.nextId)
      ensures r.Ok? <==> ItemCheck(old(produtoService.produtos), l).None?
      ensures r.Err? ==> r.error == ItemCheck(old(produtoService.produtos), l).value
      ensures r.Err? ==> produtoService.produtos == old(produtoService.produtos)
      ensures r.Ok? ==>
                && l.produtoId in old(produtoService.produtos) && l.quantidade > 0
                && produtoService.produtos == Decrement(old(produtoService.produtos), l.produtoId, l.quantidade).value
                && r.value == Priced(old(produtoService.produtos), Some(pedidoId), l)
    {
      var found := produtoService.BuscarPorId(l.produtoId);
      if found.Err? {
        return Err(found.error);
      }
      var p := found.value;
      if l.quantidade <= 0 {
        return Err(BadRequest(NonPositiveQuantity));
      }
      if l.quantidade > p.quantidadeEstoque {
        return Err(BadRequest(InsufficientStock(p.nome)));
      }
      var item := new ItemPedidoEntity();
      item.SetPedidoId(Some(pedidoId));
      item.SetProduto(Some(p));
      item.SetQuantidade(Some(l.quantidade));
      item.SetPrecoUnitario(Some(p.preco));
      item.CalcularValorTotal();
      var u := produtoService.AtualizarEstoque(p.id.value, l.quantidade);
      assert u.Pass?;
      r := Ok(Item(item.id, item.pedidoId, l.produtoId, item.quantidade.value,
                   item.precoUnitario.value, item.valorTotal));
    }

    /** The new-items loop of `atualizar`: each line is checked against the stock left by the
        lines before it; the first failing check aborts. */
    method AdicionarNovos(pedidoId: nat, linhas: seq<Line>) returns (r: Result<seq<Item>, Error>)
      requires Repos()
      modifies produtoService
      ensures Repos()
      ensures produtoService.nextId == old(produtoService.nextId)
      ensures r.Ok? <==> Replace(old(produtoService.produtos), linhas).Ok?
      ensures r.Err? ==> r.error == Replace(old(produtoService.produtos), linhas).error
      ensures r.Ok? ==>
                && produtoService.produtos == Replace(old(produtoService.produtos), linhas).value
                && PricedFor(old(produtoService.produtos), pedidoId, linhas, r.value)
                && forall j :: 0 <= j < |linhas| ==> r.value[j].id.None?
    {
      var c0 := produtoService.produtos;
      var novos: seq<Item> := [];
      ghost var cat := c0;
      assert linhas[..0] == [];
      for i := 0 to |linhas|
        invariant Repos()
        invariant produtoService.nextId == old(produtoService.nextId)
        invariant |novos| == i && produtoService.produtos == cat
        invariant Substituidos(c0, pedidoId, linhas, cat, novos)
      {
        var l := linhas[i];
        var novo := AdicionarNovo(pedidoId, l);
        if novo.Err? {
          SubstituidosErr(c0, pedidoId, linhas, cat, novos, l);
          return Err(novo.error);
        }
        SubstituidosStep(c0, pedidoId, linhas, cat, novos, l, produtoService.produtos, novo.value);
        novos := novos + [novo.value];
        cat := produtoService.produtos;
      }
      SubstituidosDone(c0, pedidoId, linhas, cat, novos);
      r := Ok(novos);
    }

    /** The item replacement of `atualizar`: the old items' quantities go back to the stock,
        then the new lines are checked and taken off it; on failure the stock is as before. */
    method SubstituirItens(o: Order, linhas: seq<Line>) returns (r: Result<seq<Item>, Error>)
      requires Repos()
      modifies produtoService
      ensures Repos()
      ensures produtoService.nextId == old(produtoService.nextId)
      ensures r.Ok? <==> Replace(RestoreAll(old(produtoService.produtos), Lines(o.itens)), linhas).Ok?
      ensures r.Err? ==> r.error == Replace(RestoreAll(old(produtoService.produtos), Lines(o.itens)), linhas).error
      ensures r.Err? ==> produtoService.produtos == old(produtoService.produtos)
      ensures r.Ok? ==>
                && produtoService.produtos == Replace(RestoreAll(old(produtoService.produtos), Lines(o.itens)), linhas).value
                && PricedFor(old(produtoService.produtos), o.id, linhas, r.value)
                && forall j :: 0 <= j < |linhas| ==> r.value[j].id.None?
    {
      var c0 := produtoService.produtos;
      RestaurarEstoque(Lines(o.itens));
      ghost var c1 := produtoService.produtos;
      RestoreAllShape(c0, Lines(o.itens));
      r := AdicionarNovos(o.id, linhas);
      if r.Err? {
        produtoService.produtos := c0;
        return;
      }
      PricedForSameButStock(c0, c1, o.id, linhas, r.value);
    }

    /** `atualizar(id, pedido)`: only a pending order may be updated; client and note are
        always overwritten; a status change is checked against the transition rules; a non-empty
        item list gives the old items' stock back, replaces the items and takes the new
        quantities off the stock; the total is recomputed from the final items. The item
        repository is not touched. The new state and the result are those of `Atualizacao`. */
    method Atualizar(id: nat, upd: PedidoUpdate) returns (r: Result<Order, Error>)
      requires Valid()
      modifies this, produtoService
      ensures Valid()
      ensures (Estado(), r) == Atualizacao(old(Estado()), id, upd)
    {
      ghost var s0 := Estado();
      var found := BuscarPorId(id);
      if found.Err? {
        return Err(found.error);
      }
      var o := found.value;
      if o.status != PENDENTE {
        return Err(BadRequest(NotPendingUpdate));
      }
      var status := o.status;
      if upd.status.Some? && upd.status.value != o.status {
        var v := ValidarAlteracaoStatus(o.status, upd.status.value);
        if v.Fail? {
          return Err(v.error);
        }
        status := upd.status.value;
      }
      var itens := o.itens;
      if |upd.itens| > 0 {
        var novos := SubstituirItens(o, upd.itens);
        if novos.Err? {
          return Err(novos.error);
        }
        itens := novos.value;
      }
      var atualizado := Order(id, upd.cliente, upd.observacao, Sum(Totals(itens)), status, itens);
      GravarAtualizacao(s0, upd, atualizado);
      r := Ok(atualizado);
    }

    /** The `pedidoRepository.save` that ends a successful `atualizar`. */
    method GravarAtualizacao(ghost s0: Snapshot, upd: PedidoUpdate, novo: Order)
      requires Repos() && Tabela(s0.pedidos, s0.pedidoNext)
      requires pedidos == s0.pedidos && nextId == s0.pedidoNext
      requires UpdateError(s0, novo.id, upd).None?
      requires novo.cliente == upd.cliente && novo.observacao == upd.observacao
      requires novo.status == (if upd.status.Some? then upd.status.value else PENDENTE)
      requires novo.valorTotal == Sum(Totals(novo.itens))
      requires |upd.itens| == 0 ==> novo.itens == Carregados(s0, novo.id)
      requires |upd.itens| > 0 ==>
                 && PricedFor(s0.produtos, novo.id, upd.itens, novo.itens)
                 && forall j :: 0 <= j < |upd.itens| ==> novo.itens[j].id.None?
      requires produtoService.produtos == NovoEstoque(s0.produtos, Carregados(s0, novo.id), upd.itens).value
      requires produtoService.nextId == s0.produtoNext
      requires itemService.itens == s0.itens && itemService.nextId == s0.itemNext
      modifies this
      ensures Valid()
      ensures (Estado(), Ok(novo)) == Atualizacao(s0, novo.id, upd)
    {
      pedidos := pedidos[novo.id := novo.Row()];
      AtualizacaoOk(s0, novo.id, upd, novo, Estado());
      AtualizacaoSpec(s0, novo.id, upd);
    }

    /** `atualizarStatus(id, status)`: any stored order, pending or not, moves to a status the
        transition rules allow; only its row's status changes, and the stock is not given back
        even when the order is cancelled. The returned entity is the loaded order with the new status. */
    method AtualizarStatus(id: nat, novo: Status) returns (r: Result<Order, Error>)
      requires Valid()
      modifies this
      ensures Valid()
      ensures id !in old(pedidos) ==> r == Err(NotFound(Pedido, id))
      ensures id in old(pedidos) && ValidarAlteracaoStatus(old(pedidos)[id].status, novo).Fail? ==>
                r == Err(ValidarAlteracaoStatus(old(pedidos)[id].status, novo).error)
      ensures r.Err? ==> pedidos == old(pedidos)
      ensures r.Ok? <==> id in old(pedidos) && ValidarAlteracaoStatus(old(pedidos)[id].status, novo).Pass?
      ensures r.Ok? ==>
                && r.value == Carregado(old(Estado()), id).(status := novo)
                && pedidos == old(pedidos)[id := old(pedidos)[id].(status := novo)]
                && Carregado(Estado(), id) == r.value
      ensures nextId == old(nextId)
    {
      var found := BuscarPorId(id);
      if found.Err? {
        return Err(found.error);
      }
      var o := found.value;
      var v := ValidarAlteracaoStatus(o.status, novo);
      if v.Fail? {
        return Err(v.error);
      }
      var atualizado := o.(status := novo);
      TabelaSubstitui(pedidos, nextId, atualizado.Row());
      pedidos := pedidos[id := atualizado.Row()];
      r := Ok(atualizado);
    }

    /** `excluir(id)`: only a pending order may be deleted; the quantities of the items it loads
        go back to their products' stock and its row is removed. The item rows are not touched.
        The new state and the outcome are those of `Exclusao`, on a schema without a foreign key
        from the item rows to the order. */
    method Excluir(id: nat) returns (r: Outcome<Error>)
      requires Valid()
      modifies this, produtoService
      ensures Valid()
      ensures (Estado(), r) == Exclusao(old(Estado()), id)
      ensures id !in old(pedidos) ==> r == Fail(NotFound(Pedido, id))
      ensures id in old(pedidos) && old(pedidos)[id].status != PENDENTE ==> r == Fail(BadRequest(NotPendingDelete))
      ensures r.Fail? ==> Estado() == old(Estado())
      ensures r.Pass? <==> id in old(pedidos) && old(pedidos)[id].status == PENDENTE
      ensures r.Pass? ==>
                && pedidos == old(pedidos) - {id}
                && produtoService.produtos == RestoreAll(old(produtoService.produtos), Lines(Carregados(old(Estado()), id)))
      ensures itemService.itens == old(itemService.itens) && nextId == old(nextId)
    {
      var found := BuscarPorId(id);
      if found.Err? {
        return Fail(found.error);
      }
      var o := found.value;
      if o.status != PENDENTE {
        return Fail(BadRequest(NotPendingDelete));
      }
      RestaurarEstoque(Lines(o.itens));
      pedidos := pedidos - {id};
      r := Pass;
    }
  }
}
