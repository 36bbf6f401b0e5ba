/** The order service's contracts as relations between states of the three repositories,
    and the lemmas that build them from the steps of each operation. */
module PedidoSpec {
  import opened Results
  import opened JavaInt
  import opened Money
  import opened Domain
  import opened StatusRules
  import opened Stock
  import opened Entity
  import opened ItensPedido

  /** Item entity `e` holds exactly the fields of row `it`. */
  ghost predicate Describes(e: ItemPedidoEntity, it: Item)
    reads e
  {
    && e.id == it.id && e.pedidoId == it.pedidoId
    && e.produto.Some? && e.produto.value.id == Some(it.produtoId)
    && e.quantidade == Some(it.quantidade) && e.precoUnitario == Some(it.precoUnitario)
    && e.valorTotal == it.valorTotal
  }

  /** The stock after an update of an order whose loaded items are `antigos` with lines `novas`:
      unchanged for an empty list; otherwise the old items' quantities come back and the new
      lines are checked and taken off one by one. */
  function NovoEstoque(c: Catalog, antigos: seq<Item>, novas: seq<Line>): Result<Catalog, Error>
  {
    if |novas| == 0 then Ok(c) else Replace(RestoreAll(c, Lines(antigos)), novas)
  }

  /** The items order `id` has when a transaction of state `s` loads it: the item rows that carry
      its id. */
  function Carregados(s: Snapshot, id: nat): seq<Item>
  {
    ItensDe(s.itens, id, s.itemNext)
  }

  /** Order `id` as a transaction of state `s` loads it: its row and its loaded items. */
  function Carregado(s: Snapshot, id: nat): Order
    requires id in s.pedidos
  {
    var row := s.pedidos[id];
    Order(row.id, row.cliente, row.observacao, row.valorTotal, row.status, Carregados(s, id))
  }

  /** The stock once the loaded items of order `id` gave their quantities back. */
  function Devolvido(s: Snapshot, id: nat): Catalog
  {
    RestoreAll(s.produtos, Lines(Carregados(s, id)))
  }

  /** Why an order update fails, if it does, in the order `atualizar` checks: a missing order,
      an order that is no longer pending, a forbidden status change, then the new items. */
  function UpdateError(s: Snapshot, id: nat, upd: PedidoUpdate): Option<Error>
  {
    if id !in s.pedidos then Some(NotFound(Pedido, id))
    else if s.pedidos[id].status != PENDENTE then Some(BadRequest(NotPendingUpdate))
    else if upd.status.Some? && upd.status.value != PENDENTE
            && ValidarAlteracaoStatus(PENDENTE, upd.status.value).Fail? then
      Some(ValidarAlteracaoStatus(PENDENTE, upd.status.value).error)
    else match NovoEstoque(s.produtos, Carregados(s, id), upd.itens)
      case Err(e) => Some(e)
      case Ok(_) => None
  }

  /** The item table after rows `s` were inserted under the consecutive fresh ids `n`, `n + 1`, ... */
  function Appended(m: map<nat, Item>, n: nat, s: seq<Item>): map<nat, Item>
  {
    if |s| == 0 then m else Appended(m, n, s[..|s| - 1])[n + |s| - 1 := s[|s| - 1]]
  }

  /** When every existing id is below `n`, appending keeps the old rows and adds exactly the
      new ones, row `j` under id `n + j`. */
  lemma {:induction false} AppendedSpec(m: map<nat, Item>, n: nat, s: seq<Item>)
    requires forall k :: k in m ==> k < n
    ensures forall k :: k in Appended(m, n, s) <==> k in m || n <= k < n + |s|
    ensures forall k :: k in m ==> Appended(m, n, s)[k] == m[k]
    ensures forall j :: 0 <= j < |s| ==> Appended(m, n, s)[n + j] == s[j]
    decreases |s|
  {
    if |s| > 0 {
      var prefix := s[..|s| - 1];
      AppendedSpec(m, n, prefix);
      assert forall j :: 0 <= j < |prefix| ==> prefix[j] == s[j];
    }
  }

  /** `itens` are the rows built for `linhas` against catalogue `c` for order `pedidoId`
      (whatever ids they were given): unit price snapshotted from the product, total = price x quantity. */
  ghost predicate PricedFor(c: Catalog, pedidoId: nat, linhas: seq<Line>, itens: seq<Item>)
  {
    && |itens| == |linhas| && AllValid(c, linhas)
    && forall j :: 0 <= j < |linhas| ==> itens[j].(id := None) == Priced(c, Some(pedidoId), linhas[j])
  }

  /** Rows priced for the lines carry exactly those lines and satisfy every per-item clause of
      the order invariant. */
  lemma PricedForConsistent(c: Catalog, pedidoId: nat, linhas: seq<Line>, itens: seq<Item>)
    requires PricedFor(c, pedidoId, linhas, itens)
    ensures Lines(itens) == linhas
    ensures forall j :: 0 <= j < |itens| ==>
              && itens[j].pedidoId == Some(pedidoId) && itens[j].quantidade > 0
              && itens[j].valorTotal == itens[j].precoUnitario * itens[j].quantidade
              && itens[j].precoUnitario == c[linhas[j].produtoId].preco
  {
    forall j | 0 <= j < |itens| ensures Lines(itens)[j] == linhas[j] {
      assert itens[j].(id := None) == Priced(c, Some(pedidoId), linhas[j]);
    }
  }

  /** Stock changes do not change prices, so rows priced against one catalogue are priced
      against any catalogue that differs from it only in stock. */
  lemma PricedForSameButStock(c: Catalog, d: Catalog, pedidoId: nat, linhas: seq<Line>, itens: seq<Item>)
    requires SameButStock(c, d) && PricedFor(d, pedidoId, linhas, itens)
    ensures PricedFor(c, pedidoId, linhas, itens)
  {
    forall j | 0 <= j < |linhas| ensures itens[j].(id := None) == Priced(c, Some(pedidoId), linhas[j]) {
      assert itens[j].(id := None) == Priced(d, Some(pedidoId), linhas[j]);
    }
  }


  /** The totals of the items built for `linhas` against catalogue `c`, in line order. */
  function PricedTotals(c: Catalog, linhas: seq<Line>): (r: seq<int>)
    requires AllValid(c, linhas)
    ensures |r| == |linhas|
    ensures forall j :: 0 <= j < |linhas| ==> r[j] == Priced(c, None, linhas[j]).valorTotal
  {
    seq(|linhas|, j requires 0 <= j < |linhas| => Priced(c, None, linhas[j]).valorTotal)
  }

  /** Item entities `ents` describe, one for one, the items built for `linhas` against `c`. */
  ghost predicate Descrevem(ents: seq<ItemPedidoEntity>, c: Catalog, linhas: seq<Line>)
    reads ents
  {
    && |ents| <= |linhas|
    && forall j :: 0 <= j < |ents| ==> linhas[j].produtoId in c && Describes(ents[j], Priced(c, None, linhas[j]))
  }

  /** The totals of entities that describe the items built for `linhas` are those items' totals. */
  lemma DescrevemTotais(ents: seq<ItemPedidoEntity>, c: Catalog, linhas: seq<Line>)
    requires Descrevem(ents, c, linhas) && |ents| == |linhas| && AllValid(c, linhas)
    ensures TotalsOf(ents) == PricedTotals(c, linhas)
  {
  }

  /** Item entity `e` names the product and the quantity of line `l`: what saving it needs. */
  ghost predicate Carries(e: ItemPedidoEntity, l: Line)
    reads e
  {
    e.produto.Some? && e.produto.value.id == Some(l.produtoId) && e.quantidade == Some(l.quantidade)
  }

  /** The item entities from position `i` on name the products and quantities of their lines
      and have not been stored yet (no id). */
  ghost predicate Pendentes(ents: seq<ItemPedidoEntity>, linhas: seq<Line>, i: nat)
    reads ents
  {
    |ents| == |linhas| && forall j :: i <= j < |ents| ==> Carries(ents[j], linhas[j]) && ents[j].id.None?
  }

  /** Item entities ready for the saving loop: pairwise distinct objects, carrying the lines, unsaved. */
  ghost predicate Prontos(ents: seq<ItemPedidoEntity>, linhas: seq<Line>)
    reads ents
  {
    (forall j, m :: 0 <= j < m < |ents| ==> ents[j] != ents[m]) && Pendentes(ents, linhas, 0)
  }

  /** Entities that describe the items built for `linhas` carry those lines and are unsaved. */
  lemma DescrevemCarries(ents: seq<ItemPedidoEntity>, c: Catalog, linhas: seq<Line>)
    requires Descrevem(ents, c, linhas) && |ents| == |linhas|
    requires forall j, m :: 0 <= j < m < |ents| ==> ents[j] != ents[m]
    ensures Prontos(ents, linhas)
  {
  }

  /** The first `i` lines passed the checks of `validarItensPedido` against catalogue `c`. */
  ghost predicate Validados(c: Catalog, linhas: seq<Line>, i: nat)
  {
    i <= |linhas| && FirstInvalid(c, linhas[..i]).None? && AllValid(c, linhas[..i])
  }

  /** One more line passed the checks. */
  lemma ValidadosStep(c: Catalog, linhas: seq<Line>, i: nat)
    requires Validados(c, linhas, i) && i < |linhas| && ItemCheck(c, linhas[i]).None?
    ensures Validados(c, linhas, i + 1)
  {
    assert linhas[..i + 1][..i] == linhas[..i];
    assert linhas[..i + 1][i] == linhas[i];
  }

  /** The first line that fails the checks gives the error of the whole list. */
  lemma ValidadosFalha(c: Catalog, linhas: seq<Line>, i: nat)
    requires Validados(c, linhas, i) && i < |linhas| && ItemCheck(c, linhas[i]).Some?
    ensures FirstInvalid(c, linhas) == ItemCheck(c, linhas[i])
  {
    assert linhas[..i + 1][..i] == linhas[..i];
    FirstInvalidSticks(c, linhas, i + 1);
  }

  /** Every line passed the checks. */
  lemma ValidadosDone(c: Catalog, linhas: seq<Line>)
    requires Validados(c, linhas, |linhas|)
    ensures FirstInvalid(c, linhas).None? && AllValid(c, linhas)
  {
    assert linhas[..|linhas|] == linhas;
  }

  /** The row saved for line `l` of order `pedidoId` under item id `id`: priced against `c`. */
  function Gravado(c: Catalog, pedidoId: nat, l: Line, id: nat): Item
    requires l.produtoId in c
  {
    Priced(c, Some(pedidoId), l).(id := Some(id))
  }

  /** The state of the creation loop after `|salvos|` turns, starting from catalogue `c0`, item
      table `i0` and next item id `n0`: the stock is that of the first `|salvos|` decrements, and
      row `j` is line `j` priced against `c0`, stored under id `n0 + j`. */
  ghost predicate Gravados(c0: Catalog, i0: map<nat, Item>, n0: nat, pedidoId: nat, linhas: seq<Line>,
                           cat: Catalog, tab: map<nat, Item>, salvos: seq<Item>)
  {
    && AllValid(c0, linhas) && |salvos| <= |linhas|
    && DecrementAll(c0, linhas[..|salvos|]) == Ok(cat)
    && SameButStock(c0, cat)
    && (forall j :: 0 <= j < |salvos| ==> salvos[j] == Gravado(c0, pedidoId, linhas[j], n0 + j))
    && tab == Appended(i0, n0, salvos)
  }

  /** One more successful turn of the creation loop: line `l`, the next one, was taken off
      the stock and saved under item id `n`, the next one. */
  lemma GravadosStep(c0: Catalog, i0: map<nat, Item>, n0: nat, pedidoId: nat, linhas: seq<Line>,
                     cat: Catalog, tab: map<nat, Item>, salvos: seq<Item>,
                     l: Line, n: nat, cat2: Catalog, x: Item)
    requires Gravados(c0, i0, n0, pedidoId, linhas, cat, tab, salvos) && |salvos| < |linhas|
    requires l == linhas[|salvos|] && n == n0 + |salvos| && l.produtoId in cat
    requires Decrement(cat, l.produtoId, l.quantidade) == Ok(cat2)
    requires x == Gravado(cat, pedidoId, l, n)
    ensures Gravados(c0, i0, n0, pedidoId, linhas, cat2, tab[n := x], salvos + [x])
  {
    var i := |salvos|;
    assert linhas[..i + 1][..i] == linhas[..i];
    SameButStockTrans(c0, cat, cat2);
    assert x == Gravado(c0, pedidoId, linhas[i], n0 + i);
    GravadosRows(c0, i0, n0, pedidoId, linhas, salvos, x);
  }

  /** The row part of `GravadosStep`: one more row, saved under the next consecutive id. */
  lemma GravadosRows(c0: Catalog, i0: map<nat, Item>, n0: nat, pedidoId: nat, linhas: seq<Line>,
                     salvos: seq<Item>, x: Item)
    requires AllValid(c0, linhas) && |salvos| < |linhas|
    requires forall j :: 0 <= j < |salvos| ==> salvos[j] == Gravado(c0, pedidoId, linhas[j], n0 + j)
    requires x == Gravado(c0, pedidoId, linhas[|salvos|], n0 + |salvos|)
    ensures forall j :: 0 <= j < |salvos| + 1 ==> (salvos + [x])[j] == Gravado(c0, pedidoId, linhas[j], n0 + j)
    ensures Appended(i0, n0, salvos + [x]) == Appended(i0, n0, salvos)[n0 + |salvos| := x]
  {
    var s2 := salvos + [x];
    assert s2[..|s2| - 1] == salvos;
    forall j | 0 <= j < |s2| ensures s2[j] == Gravado(c0, pedidoId, linhas[j], n0 + j) {
      if j < |salvos| {
        assert s2[j] == salvos[j];
      }
    }
  }

  /** A failing decrement ends the creation loop with that error. */
  lemma GravadosErr(c0: Catalog, i0: map<nat, Item>, n0: nat, pedidoId: nat, linhas: seq<Line>,
                    cat: Catalog, tab: map<nat, Item>, salvos: seq<Item>)
    requires Gravados(c0, i0, n0, pedidoId, linhas, cat, tab, salvos) && |salvos| < |linhas|
    requires Decrement(cat, linhas[|salvos|].produtoId, linhas[|salvos|].quantidade).Err?
    ensures DecrementAll(c0, linhas).Err?
    ensures DecrementAll(c0, linhas).error == Decrement(cat, linhas[|salvos|].produtoId, linhas[|salvos|].quantidade).error
  {
    var i := |salvos|;
    assert linhas[..i + 1][..i] == linhas[..i];
    DecrementAllErrSticks(c0, linhas, i + 1);
  }

  /** The creation loop after its last turn: every line decremented, every row priced and
      stored under its consecutive id. */
  lemma GravadosDone(c0: Catalog, i0: map<nat, Item>, n0: nat, pedidoId: nat, linhas: seq<Line>,
                     cat: Catalog, tab: map<nat, Item>, salvos: seq<Item>)
    requires Gravados(c0, i0, n0, pedidoId, linhas, cat, tab, salvos) && |salvos| == |linhas|
    ensures DecrementAll(c0, linhas) == Ok(cat)
    ensures PricedFor(c0, pedidoId, linhas, salvos)
    ensures forall j :: 0 <= j < |linhas| ==> salvos[j].id == Some(n0 + j)
  {
    assert linhas[..|salvos|] == linhas;
    forall j | 0 <= j < |linhas| ensures salvos[j].(id := None) == Priced(c0, Some(pedidoId), linhas[j]) {
      assert salvos[j] == Gravado(c0, pedidoId, linhas[j], n0 + j);
    }
  }

  /** What a successful `salvar` of `linhas` leaves behind, from catalogue `c0`, item table
      `i0` and next item id `n0`: order `o` satisfies the aggregate invariant; its items are the
      requested lines priced against `c0`, stored under the consecutive ids from `n0`; the
      catalogue is `c0` after the decrement loop. */
  ghost predicate Criado(c0: Catalog, i0: map<nat, Item>, n0: nat, linhas: seq<Line>, o: Order,
                         cat: Catalog, tab: map<nat, Item>)
  {
    && Consistent(o)
    && Lines(o.itens) == linhas
    && PricedFor(c0, o.id, linhas, o.itens)
    && DecrementAll(c0, linhas) == Ok(cat)
    && (forall j :: 0 <= j < |o.itens| ==> o.itens[j].id == Some(n0 + j))
    && tab == Appended(i0, n0, o.itens)
  }

  /** The completed creation loop, with the order total summed from the priced items, is a
      successful creation. */
  lemma CriadoDe(c0: Catalog, i0: map<nat, Item>, n0: nat, linhas: seq<Line>, o: Order,
                 cat: Catalog, tab: map<nat, Item>, totais: seq<int>)
    requires Gravados(c0, i0, n0, o.id, linhas, cat, tab, o.itens) && |o.itens| == |linhas|
    requires |totais| == |linhas|
    requires forall j :: 0 <= j < |totais| ==> totais[j] == Priced(c0, None, linhas[j]).valorTotal
    requires o.valorTotal == Sum(totais)
    ensures Criado(c0, i0, n0, linhas, o, cat, tab)
  {
    GravadosDone(c0, i0, n0, o.id, linhas, cat, tab, o.itens);
    PricedForConsistent(c0, o.id, linhas, o.itens);
    forall j | 0 <= j < |totais| ensures Totals(o.itens)[j] == totais[j] {
      assert o.itens[j].(id := None) == Priced(c0, Some(o.id), linhas[j]);
    }
    assert Totals(o.itens) == totais;
  }

  /** Everything a transaction can change: the product table and its id counter, the item table
      and its id counter, the order table and its id counter. */
  datatype Snapshot = Snapshot(produtos: Catalog, produtoNext: nat, itens: map<nat, Item>, itemNext: nat,
                               pedidos: map<nat, OrderRow>, pedidoNext: nat)

  /** Order `o`, built from `cliente`, `observacao`, `status` and the lines `linhas`, was stored by
      the creation path, taking the state from `s` to `t`: `o` took the next order id; its items are
      the lines priced against the stock of `s`, stored under consecutive fresh item ids; the stock
      is that of `s` after the decrement loop; nothing else changed. */
  ghost predicate Gravou(s: Snapshot, linhas: seq<Line>, cliente: string, observacao: string, status: Status,
                         t: Snapshot, o: Order)
  {
    && o.id == s.pedidoNext && s.pedidoNext !in s.pedidos
    && o.cliente == cliente && o.observacao == observacao && o.status == status
    && Criado(s.produtos, s.itens, s.itemNext, linhas, o, t.produtos, t.itens)
    && t.produtoNext == s.produtoNext && t.itemNext == s.itemNext + |linhas|
    && t.pedidos == s.pedidos[o.id := o.Row()] && t.pedidoNext == s.pedidoNext + 1
  }

  /** The contract of the storing half of `salvar`: it fails exactly when the decrement loop
      fails, with that error and with the state rolled back; otherwise it stored the order. */
  ghost predicate Persistido(s: Snapshot, linhas: seq<Line>, cliente: string, observacao: string, status: Status,
                             t: Snapshot, r: Result<Order, Error>)
  {
    && (r.Err? <==> DecrementAll(s.produtos, linhas).Err?)
    && (r.Err? ==> r.error == DecrementAll(s.produtos, linhas).error && t == s)
    && (r.Ok? ==> Gravou(s, linhas, cliente, observacao, status, t, r.value))
  }

  /** The contract of `salvar(req)` from state `s` to state `t`: it fails exactly as
      `CreateError` says, and then the state is rolled back; otherwise it stored a PENDENTE order
      with the request's client and note and the request's lines. */
  ghost predicate Criacao(s: Snapshot, req: PedidoRequest, t: Snapshot, r: Result<Order, Error>)
  {
    && (r.Err? <==> CreateError(s.produtos, req.itens).Some?)
    && (r.Err? ==> r.error == CreateError(s.produtos, req.itens).value && t == s)
    && (r.Ok? ==> Gravou(s, req.itens, req.cliente, req.observacao, PENDENTE, t, r.value))
  }

  /** Lines that passed the checks of `validarItensPedido` and were then stored make a creation. */
  lemma CriacaoDe(s: Snapshot, req: PedidoRequest, t: Snapshot, r: Result<Order, Error>)
    requires |req.itens| > 0 && FirstInvalid(s.produtos, req.itens).None?
    requires Persistido(s, req.itens, req.cliente, req.observacao, PENDENTE, t, r)
    ensures Criacao(s, req, t, r)
  {
  }

  /** The completed creation loop, with the order total summed from the priced items and the
      order stored under the next order id, is a successful store. */
  lemma PersistidoOk(s: Snapshot, linhas: seq<Line>, o: Order, t: Snapshot)
    requires Tabela(s.pedidos, s.pedidoNext) && o.id == s.pedidoNext
    requires Gravados(s.produtos, s.itens, s.itemNext, o.id, linhas, t.produtos, t.itens, o.itens)
    requires |o.itens| == |linhas| && o.valorTotal == Sum(PricedTotals(s.produtos, linhas))
    requires t.produtoNext == s.produtoNext && t.itemNext == s.itemNext + |linhas|
    requires t.pedidos == s.pedidos[o.id := o.Row()] && t.pedidoNext == s.pedidoNext + 1
    ensures Persistido(s, linhas, o.cliente, o.observacao, o.status, t, Ok(o))
    ensures Tabela(t.pedidos, t.pedidoNext)
  {
    CriadoDe(s.produtos, s.itens, s.itemNext, linhas, o, t.produtos, t.itens, PricedTotals(s.produtos, linhas));
    TabelaInsere(s.pedidos, s.pedidoNext, o.Row());
  }

  /** The rows the creation loop stores for `linhas` as items of order `pedidoId`: line `j`
      priced against `c`, under item id `n0 + j`. */
  function Rows(c: Catalog, pedidoId: nat, linhas: seq<Line>, n0: nat): (r: seq<Item>)
    requires AllValid(c, linhas)
    ensures |r| == |linhas|
    ensures forall j :: 0 <= j < |linhas| ==> r[j] == Gravado(c, pedidoId, linhas[j], n0 + j)
  {
    seq(|linhas|, j requires 0 <= j < |linhas| => Gravado(c, pedidoId, linhas[j], n0 + j))
  }

  /** The new state and the result of the storing half of `salvar` from state `s`, for checked
      lines `linhas`: the first failing decrement leaves `s` as it was; otherwise the order takes
      the next order id and the summed total of its priced rows, the rows are appended under the
      next item ids and the stock is that of the decrement loop. */
  function Gravacao(s: Snapshot, linhas: seq<Line>, cliente: string, observacao: string, status: Status)
    : (Snapshot, Result<Order, Error>)
    requires AllValid(s.produtos, linhas)
  {
    match DecrementAll(s.produtos, linhas)
    case Err(e) => (s, Err(e))
    case Ok(cat) =>
      var itens := Rows(s.produtos, s.pedidoNext, linhas, s.itemNext);
      var o := Order(s.pedidoNext, cliente, observacao, Sum(PricedTotals(s.produtos, linhas)), status, itens);
      (Snapshot(cat, s.produtoNext, Appended(s.itens, s.itemNext, itens), s.itemNext + |linhas|,
                s.pedidos[o.id := o.Row()], o.id + 1),
       Ok(o))
  }

  /** `Gravacao` fails exactly when the decrement loop does, rolls back, and otherwise stores a
      consistent order as `Gravou` describes. */
  lemma GravacaoSpec(s: Snapshot, linhas: seq<Line>, cliente: string, observacao: string, status: Status)
    requires Tabela(s.pedidos, s.pedidoNext) && AllValid(s.produtos, linhas)
    ensures Persistido(s, linhas, cliente, observacao, status,
                       Gravacao(s, linhas, cliente, observacao, status).0,
                       Gravacao(s, linhas, cliente, observacao, status).1)
  {
    if DecrementAll(s.produtos, linhas).Ok? {
      var cat := DecrementAll(s.produtos, linhas).value;
      var itens := Rows(s.produtos, s.pedidoNext, linhas, s.itemNext);
      var o := Order(s.pedidoNext, cliente, observacao, Sum(PricedTotals(s.produtos, linhas)), status, itens);
      var t := Gravacao(s, linhas, cliente, observacao, status).0;
      assert linhas[..|itens|] == linhas;
      DecrementAllShape(s.produtos, linhas);
      PersistidoOk(s, linhas, o, t);
    }
  }

  /** `Gravacao` keeps the order table well formed. */
  lemma GravacaoTabela(s: Snapshot, linhas: seq<Line>, cliente: string, observacao: string, status: Status)
    requires Tabela(s.pedidos, s.pedidoNext) && AllValid(s.produtos, linhas)
    ensures Tabela(Gravacao(s, linhas, cliente, observacao, status).0.pedidos,
                   Gravacao(s, linhas, cliente, observacao, status).0.pedidoNext)
  {
    GravacaoSpec(s, linhas, cliente, observacao, status);
  }

  /** A failing decrement loop is `Gravacao`'s failure, with that error and the state kept. */
  lemma GravacaoErr(s: Snapshot, linhas: seq<Line>, cliente: string, observacao: string, status: Status)
    requires AllValid(s.produtos, linhas) && DecrementAll(s.produtos, linhas).Err?
    ensures Gravacao(s, linhas, cliente, observacao, status) == (s, Err(DecrementAll(s.produtos, linhas).error))
  {
  }

  /** A completed creation loop from state `s` is `Gravacao`'s success: its rows, stock and item
      table are those the function computes. */
  lemma GravacaoOk(s: Snapshot, linhas: seq<Line>, o: Order, t: Snapshot)
    requires o.id == s.pedidoNext && |o.itens| == |linhas|
    requires Gravados(s.produtos, s.itens, s.itemNext, o.id, linhas, t.produtos, t.itens, o.itens)
    requires o.valorTotal == Sum(PricedTotals(s.produtos, linhas))
    requires t.produtoNext == s.produtoNext && t.itemNext == s.itemNext + |linhas|
    requires t.pedidos == s.pedidos[o.id := o.Row()] && t.pedidoNext == o.id + 1
    ensures Gravacao(s, linhas, o.cliente, o.observacao, o.status) == (t, Ok(o))
  {
    GravadosDone(s.produtos, s.itens, s.itemNext, o.id, linhas, t.produtos, t.itens, o.itens);
    assert o.itens == Rows(s.produtos, s.pedidoNext, linhas, s.itemNext);
  }

  /** The new state and the result of `salvar(req)` from state `s`: an empty list or a line
      failing its check is refused with the state unchanged; otherwise the lines are stored as a
      PENDENTE order with the request's client and note. */
  function Criar(s: Snapshot, req: PedidoRequest): (Snapshot, Result<Order, Error>)
  {
    if |req.itens| == 0 then (s, Err(BadRequest(EmptyItems)))
    else if FirstInvalid(s.produtos, req.itens).Some? then (s, Err(FirstInvalid(s.produtos, req.itens).value))
    else
      FirstInvalidNone(s.produtos, req.itens);
      Gravacao(s, req.itens, req.cliente, req.observacao, PENDENTE)
  }

  /** `Criar` fails exactly as `CreateError` says and then rolls back; otherwise it stores a
      PENDENTE order for the request's lines; the order table stays well formed. */
  lemma CriarSpec(s: Snapshot, req: PedidoRequest)
    requires Tabela(s.pedidos, s.pedidoNext)
    ensures Criacao(s, req, Criar(s, req).0, Criar(s, req).1)
    ensures Tabela(Criar(s, req).0.pedidos, Criar(s, req).0.pedidoNext)
  {
    if |req.itens| > 0 && FirstInvalid(s.produtos, req.itens).None? {
      FirstInvalidNone(s.produtos, req.itens);
      GravacaoSpec(s, req.itens, req.cliente, req.observacao, PENDENTE);
      CriacaoDe(s, req, Criar(s, req).0, Criar(s, req).1);
    }
  }

  /** The new state and the result of `excluir(id)` from state `s`: a missing order is not
      found and an order that is not pending is refused, with the state unchanged; otherwise the
      loaded items' quantities go back to the stock and the order row is removed. The item rows
      stay where they are. This follows a schema without a foreign key from the item rows to the
      order; where the key exists, removing a row that item rows still name is refused and the
      whole deletion rolls back. */
  function Exclusao(s: Snapshot, id: nat): (Snapshot, Outcome<Error>)
  {
    if id !in s.pedidos then (s, Fail(NotFound(Pedido, id)))
    else if s.pedidos[id].status != PENDENTE then (s, Fail(BadRequest(NotPendingDelete)))
    else (s.(produtos := Devolvido(s, id), pedidos := s.pedidos - {id}), Pass)
  }

  /** Creating an order and then deleting it restores the stock and the order table, on a schema
      without a foreign key from the item rows to the order, provided no item row already named
      the id the new order takes: the order loads with exactly the
      items the creation stored, it is PENDENTE, so `excluir` accepts it, and giving those
      items' quantities back to the stock the creation left yields the stock before it. */
  lemma CriarExcluir(s: Snapshot, req: PedidoRequest)
    requires Tabela(s.pedidos, s.pedidoNext) && KeyedItems(s.itens, s.itemNext)
    requires forall k :: k in s.itens ==> s.itens[k].pedidoId != Some(s.pedidoNext)
    requires Criar(s, req).1.Ok?
    ensures var (t, o) := (Criar(s, req).0, Criar(s, req).1.value);
            && o.id in t.pedidos && Carregado(t, o.id) == o
            && Exclusao(t, o.id) == (t.(produtos := s.produtos, pedidos := s.pedidos), Pass)
  {
    CriarSpec(s, req);
    GravouExcluir(s, req.itens, req.cliente, req.observacao, PENDENTE, Criar(s, req).0, Criar(s, req).1.value);
  }

  /** In the state `Gravou` describes, the new order loads as the stored entity, and giving its
      items' quantities back and removing its row yields the state before the creation. */
  lemma GravouExcluir(s: Snapshot, linhas: seq<Line>, cliente: string, observacao: string, status: Status,
                      t: Snapshot, o: Order)
    requires Gravou(s, linhas, cliente, observacao, status, t, o) && KeyedItems(s.itens, s.itemNext)
    requires forall k :: k in s.itens ==> s.itens[k].pedidoId != Some(o.id)
    ensures o.id in t.pedidos && Carregado(t, o.id) == o
    ensures Devolvido(t, o.id) == s.produtos
    ensures t.pedidos - {o.id} == s.pedidos
  {
    GravouCarrega(s, linhas, cliente, observacao, status, t, o);
    RestoreUndoesDecrement(s.produtos, linhas);
    assert t.pedidos - {o.id} == s.pedidos;
  }

  /** The rows a creation appended are, in their order, everything the new order loads. */
  lemma GravouCarrega(s: Snapshot, linhas: seq<Line>, cliente: string, observacao: string, status: Status,
                      t: Snapshot, o: Order)
    requires Gravou(s, linhas, cliente, observacao, status, t, o) && KeyedItems(s.itens, s.itemNext)
    requires forall k :: k in s.itens ==> s.itens[k].pedidoId != Some(o.id)
    ensures Carregados(t, o.id) == o.itens
  {
    assert |o.itens| == |Lines(o.itens)| == |linhas|;
    AppendedCarrega(s.itens, s.itemNext, o.itens, o.id);
  }

  /** Rows of order `pedidoId` appended under fresh ids to a table where no row names that
      order are, in their order, everything the order loads. */
  lemma AppendedCarrega(m: map<nat, Item>, n0: nat, rows: seq<Item>, pedidoId: nat)
    requires forall k :: k in m ==> k < n0 && m[k].pedidoId != Some(pedidoId)
    requires forall j :: 0 <= j < |rows| ==> rows[j].pedidoId == Some(pedidoId)
    ensures ItensDe(Appended(m, n0, rows), pedidoId, n0 + |rows|) == rows
  {
    var t := Appended(m, n0, rows);
    AppendedBelow(m, n0, rows);
    assert ItensDe(t, pedidoId, n0) == [] by {
      ItensDeFrame(t, m, pedidoId, n0);
      ItensDeNone(m, pedidoId, n0);
    }
    assert ItensDe(t, pedidoId, n0 + |rows|) == rows by {
      ItensDeRange(t, pedidoId, n0, rows, |rows|);
      assert rows[..|rows|] == rows;
    }
  }

  /** `AppendedSpec` in the form the loading lemmas take: below `n` the table is `m`, and from
      `n` on it holds `s` in order. */
  lemma AppendedBelow(m: map<nat, Item>, n: nat, s: seq<Item>)
    requires forall k :: k in m ==> k < n
    ensures forall k :: 0 <= k < n ==> (k in Appended(m, n, s) <==> k in m)
    ensures forall k :: 0 <= k < n && k in Appended(m, n, s) ==> Appended(m, n, s)[k] == m[k]
    ensures forall i :: n <= i < n + |s| ==> i in Appended(m, n, s) && Appended(m, n, s)[i] == s[i - n]
  {
    AppendedSpec(m, n, s);
    forall i | n <= i < n + |s| ensures i in Appended(m, n, s) && Appended(m, n, s)[i] == s[i - n] {
      assert Appended(m, n, s)[n + (i - n)] == s[i - n];
    }
  }

  /** The items built for `linhas` as items of order `pedidoId`: priced against `c`, unsaved. */
  function PricedItems(c: Catalog, pedidoId: nat, linhas: seq<Line>): (r: seq<Item>)
    requires AllValid(c, linhas)
    ensures |r| == |linhas|
    ensures forall j :: 0 <= j < |linhas| ==> r[j] == Priced(c, Some(pedidoId), linhas[j])
  {
    seq(|linhas|, j requires 0 <= j < |linhas| => Priced(c, Some(pedidoId), linhas[j]))
  }

  /** New lines that the update loop accepts, once the old items' stock came back, name stored
      products with positive quantities. */
  lemma NovoEstoqueValid(c: Catalog, antigos: seq<Item>, novas: seq<Line>)
    requires |novas| > 0 && NovoEstoque(c, antigos, novas).Ok?
    ensures AllValid(c, novas)
  {
    RestoreAllShape(c, Lines(antigos));
    ReplaceFits(RestoreAll(c, Lines(antigos)), novas);
  }

  /** The item list of the updated entity of order `id`, whose loaded items are `antigos`: those
      for an empty list, otherwise the new lines priced against `c`. */
  function ItensAtualizados(c: Catalog, id: nat, antigos: seq<Item>, novas: seq<Line>): seq<Item>
    requires NovoEstoque(c, antigos, novas).Ok?
  {
    if |novas| == 0 then antigos
    else
      NovoEstoqueValid(c, antigos, novas);
      PricedItems(c, id, novas)
  }

  /** The new state and the result of `atualizar(id, upd)` from state `s`: refused as
      `UpdateError` says with the state unchanged; otherwise the entity gets the request's client,
      note and status (PENDENTE when none is given), the updated item list and its summed total,
      its row is written, and the stock is that of the item replacement. The item table is not
      written: the new items exist only in the returned entity. */
  function Atualizacao(s: Snapshot, id: nat, upd: PedidoUpdate): (Snapshot, Result<Order, Error>)
  {
    if UpdateError(s, id, upd).Some? then
      (s, Err(UpdateError(s, id, upd).value))
    else
      var antigos := Carregados(s, id);
      var itens := ItensAtualizados(s.produtos, id, antigos, upd.itens);
      var status := if upd.status.Some? then upd.status.value else PENDENTE;
      var novo := Order(id, upd.cliente, upd.observacao, Sum(Totals(itens)), status, itens);
      (s.(produtos := NovoEstoque(s.produtos, antigos, upd.itens).value, pedidos := s.pedidos[id := novo.Row()]),
       Ok(novo))
  }

  /** `Atualizacao` fails exactly as `UpdateError` says and then changes nothing; otherwise
      only the stock and the order's row change; the returned entity's total is the sum of its
      items; an empty list keeps the loaded items, a non-empty one becomes the entity's items,
      priced against the stock before the update, while the order still loads with its old items. */
  lemma AtualizacaoSpec(s: Snapshot, id: nat, upd: PedidoUpdate)
    requires Tabela(s.pedidos, s.pedidoNext)
    ensures var (t, r) := Atualizacao(s, id, upd);
            && (r.Err? <==> UpdateError(s, id, upd).Some?)
            && (r.Err? ==> r.error == UpdateError(s, id, upd).value && t == s)
            && t.produtoNext == s.produtoNext && t.itens == s.itens && t.itemNext == s.itemNext
            && t.pedidoNext == s.pedidoNext
            && Tabela(t.pedidos, t.pedidoNext)
            && (r.Ok? ==>
                  && id in s.pedidos && s.pedidos[id].status == PENDENTE
                  && t.pedidos == s.pedidos[id := r.value.Row()]
                  && r.value.id == id && r.value.cliente == upd.cliente && r.value.observacao == upd.observacao
                  && r.value.status == (if upd.status.Some? then upd.status.value else PENDENTE)
                  && r.value.valorTotal == Sum(Totals(r.value.itens))
                  && t.produtos == NovoEstoque(s.produtos, Carregados(s, id), upd.itens).value
                  && Carregados(t, id) == Carregados(s, id)
                  && (|upd.itens| == 0 ==> r.value.itens == Carregados(s, id))
                  && (|upd.itens| > 0 ==>
                        && Consistent(r.value)
                        && Lines(r.value.itens) == upd.itens
                        && PricedFor(s.produtos, id, upd.itens, r.value.itens)
                        && forall j :: 0 <= j < |upd.itens| ==> r.value.itens[j].id.None?))
  {
    if UpdateError(s, id, upd).None? {
      var novo := Atualizacao(s, id, upd).1.value;
      if |upd.itens| > 0 {
        NovoEstoqueValid(s.produtos, Carregados(s, id), upd.itens);
        PricedForConsistent(s.produtos, id, upd.itens, novo.itens);
      }
      TabelaSubstitui(s.pedidos, s.pedidoNext, novo.Row());
    }
  }

  /** Unsaved rows priced for the lines are exactly the rows `PricedItems` builds. */
  lemma PricedForItems(c: Catalog, pedidoId: nat, linhas: seq<Line>, itens: seq<Item>)
    requires PricedFor(c, pedidoId, linhas, itens)
    requires forall j :: 0 <= j < |linhas| ==> itens[j].id.None?
    ensures itens == PricedItems(c, pedidoId, linhas)
  {
    forall j | 0 <= j < |linhas| ensures itens[j] == PricedItems(c, pedidoId, linhas)[j] {
      assert itens[j] == itens[j].(id := None);
    }
  }

  /** A successful update step by step: the updated entity `novo` and the state `t` that
      `atualizar` leaves behind are the ones `Atualizacao` describes. */
  lemma AtualizacaoOk(s: Snapshot, id: nat, upd: PedidoUpdate, novo: Order, t: Snapshot)
    requires UpdateError(s, id, upd).None?
    requires novo.id == id && novo.cliente == upd.cliente && novo.observacao == upd.observacao
    requires novo.status == (if upd.status.Some? then upd.status.value else PENDENTE)
    requires novo.valorTotal == Sum(Totals(novo.itens))
    requires |upd.itens| == 0 ==> novo.itens == Carregados(s, id)
    requires |upd.itens| > 0 ==>
               && PricedFor(s.produtos, id, upd.itens, novo.itens)
               && forall j :: 0 <= j < |upd.itens| ==> novo.itens[j].id.None?
    requires t.produtos == NovoEstoque(s.produtos, Carregados(s, id), upd.itens).value
    requires t.pedidos == s.pedidos[id := novo.Row()]
    requires t.produtoNext == s.produtoNext && t.itens == s.itens && t.itemNext == s.itemNext
    requires t.pedidoNext == s.pedidoNext
    ensures Atualizacao(s, id, upd) == (t, Ok(novo))
  {
    if |upd.itens| > 0 {
      PricedForItems(s.produtos, id, upd.itens, novo.itens);
    }
    assert ItensAtualizados(s.produtos, id, Carregados(s, id), upd.itens) == novo.itens;
    assert t == s.(produtos := t.produtos, pedidos := t.pedidos);
  }

  /** The state of the new-items loop of `atualizar` after `|novos|` turns from catalogue `c0`:
      the stock is that of the first `|novos|` lines checked and taken off, and item `j` is line
      `j` priced against `c0`, unsaved. */
  ghost predicate Substituidos(c0: Catalog, pedidoId: nat, linhas: seq<Line>, cat: Catalog, novos: seq<Item>)
  {
    && |novos| <= |linhas|
    && Replace(c0, linhas[..|novos|]) == Ok(cat)
    && SameButStock(c0, cat)
    && forall j :: 0 <= j < |novos| ==>
         && linhas[j].produtoId in c0 && linhas[j].quantidade > 0
         && novos[j] == Priced(c0, Some(pedidoId), linhas[j])
  }

  /** One more successful turn of the new-items loop: line `l`, the next one, passed its check
      against the current stock and was taken off it. */
  lemma SubstituidosStep(c0: Catalog, pedidoId: nat, linhas: seq<Line>, cat: Catalog, novos: seq<Item>,
                         l: Line, cat2: Catalog, x: Item)
    requires Substituidos(c0, pedidoId, linhas, cat, novos) && |novos| < |linhas| && l == linhas[|novos|]
    requires ItemCheck(cat, l).None? && l.produtoId in cat && l.quantidade > 0
    requires cat2 == Decrement(cat, l.produtoId, l.quantidade).value
    requires x == Priced(cat, Some(pedidoId), l)
    ensures Substituidos(c0, pedidoId, linhas, cat2, novos + [x])
  {
    var i := |novos|;
    var n2 := novos + [x];
    assert linhas[..i + 1][..i] == linhas[..i];
    assert linhas[..i + 1][i] == l;
    SameButStockTrans(c0, cat, cat2);
    forall j | 0 <= j < |n2| ensures linhas[j].produtoId in c0 && n2[j] == Priced(c0, Some(pedidoId), linhas[j]) {
      if j < i {
        assert n2[j] == novos[j];
      }
    }
  }

  /** A line failing its check ends the new-items loop with that error. */
  lemma SubstituidosErr(c0: Catalog, pedidoId: nat, linhas: seq<Line>, cat: Catalog, novos: seq<Item>, l: Line)
    requires Substituidos(c0, pedidoId, linhas, cat, novos) && |novos| < |linhas| && l == linhas[|novos|]
    requires ItemCheck(cat, l).Some?
    ensures Replace(c0, linhas) == Err(ItemCheck(cat, l).value)
  {
    var i := |novos|;
    assert linhas[..i + 1][..i] == linhas[..i];
    ReplaceErrSticks(c0, linhas, i + 1);
  }

  /** The new-items loop after its last turn. */
  lemma SubstituidosDone(c0: Catalog, pedidoId: nat, linhas: seq<Line>, cat: Catalog, novos: seq<Item>)
    requires Substituidos(c0, pedidoId, linhas, cat, novos) && |novos| == |linhas|
    ensures Replace(c0, linhas) == Ok(cat)
    ensures PricedFor(c0, pedidoId, linhas, novos)
    ensures forall j :: 0 <= j < |linhas| ==> novos[j].id.None?
  {
    assert linhas[..|novos|] == linhas;
    forall j | 0 <= j < |linhas| ensures novos[j].(id := None) == Priced(c0, Some(pedidoId), linhas[j]) {
      assert novos[j] == Priced(c0, Some(pedidoId), linhas[j]);
    }
  }

  /** After a successful update with new items the order still loads with the items it had:
      the new ones were never written to the item table. A later update, or a later deletion
      where the schema allows it, therefore gives back the old items' quantities to the stock the update left, not the
      quantities the update took off it. */
  lemma AtualizacaoMantemAntigos(s: Snapshot, id: nat, upd: PedidoUpdate)
    requires Tabela(s.pedidos, s.pedidoNext)
    requires Atualizacao(s, id, upd).1.Ok? && |upd.itens| > 0
    ensures var (t, r) := Atualizacao(s, id, upd);
            && Carregados(t, id) == Carregados(s, id)
            && Devolvido(t, id) == RestoreAll(Replace(Devolvido(s, id), upd.itens).value, Lines(Carregados(s, id)))
  {
    AtualizacaoSpec(s, id, upd);
  }

  /** Product 1 with a stock of 10, and empty order and item tables. */
  function Inicial(): Snapshot
  {
    Snapshot(map[1 := Product(Some(1), "p", "", 1, 10)], 2, map[], 1, map[], 1)
  }

  /** The state after order 1 was created for two units of product 1 from `Inicial`. */
  function Criado1(): Snapshot
  {
    Snapshot(map[1 := Product(Some(1), "p", "", 1, 8)], 2,
             map[1 := Item(Some(1), Some(1), 1, 2, 1, 2)], 2,
             map[1 := OrderRow(1, "c", "", 2, PENDENTE)], 2)
  }

  /** The update of order 1 to five units of product 1 (`atualizar` with one new line). */
  function Cinco(): PedidoUpdate
  {
    PedidoUpdate("c", "", None, [Line(1, 5)])
  }

  /** The state after `Cinco` was applied to `Criado1` as written: stock 5, the order's row has
      total 5, and the item table still holds the old row for two units. */
  function Atualizado1(): Snapshot
  {
    Snapshot(map[1 := Product(Some(1), "p", "", 1, 5)], 2,
             map[1 := Item(Some(1), Some(1), 1, 2, 1, 2)], 2,
             map[1 := OrderRow(1, "c", "", 5, PENDENTE)], 2)
  }

  /** The stock drift of `atualizar` on one input: order 1 is created for two units of product 1
      (stock 10 to 8) and updated to five units (2 come back, 5 go: stock 5); the updated entity
      has the new item and total 5, but the order still loads with its old item. On a schema
      without a foreign key from the item rows to the order, deleting the order afterwards gives
      back 2 units, leaving 7, where deleting it before the update left 10; `AtualizacaoRepetida`
      shows the drift without a deletion. */
  lemma AtualizacaoDesvio()
    ensures Criar(Inicial(), PedidoRequest("c", "", 0, None, [Line(1, 2)])).0 == Criado1()
    ensures var (t, r) := Atualizacao(Criado1(), 1, Cinco());
            && r.Ok? && r.value.valorTotal == 5 && Lines(r.value.itens) == [Line(1, 5)]
            && t == Atualizado1()
            && Lines(Carregados(t, 1)) == [Line(1, 2)]
            && Devolvido(Criado1(), 1)[1].quantidadeEstoque == 10
            && Devolvido(t, 1)[1].quantidadeEstoque == 7
  {
  }

  /** Repeating the same update after `AtualizacaoDesvio`: the order still loads its old item, so
      2 units come back again and 5 go, leaving 2 in stock, although no order holds more than
      five units. */
  lemma AtualizacaoRepetida()
    ensures var (t, r) := Atualizacao(Atualizado1(), 1, Cinco());
            && r.Ok? && r.value.valorTotal == 5 && Lines(r.value.itens) == [Line(1, 5)]
            && t.produtos[1].quantidadeEstoque == 2
            && Lines(Carregados(t, 1)) == [Line(1, 2)]
  {
  }

  /** The item table without the rows of order `id`. */
  function SemItensDe(itens: map<nat, Item>, id: nat): map<nat, Item>
  {
    map k | k in itens && itens[k].pedidoId != Some(id) :: itens[k]
  }

  /** Items `itens` as the rows stored under the consecutive ids from `n0`. */
  function Numerados(itens: seq<Item>, n0: nat): (r: seq<Item>)
    ensures |r| == |itens|
    ensures forall j :: 0 <= j < |itens| ==> r[j] == itens[j].(id := Some(n0 + j))
  {
    seq(|itens|, j requires 0 <= j < |itens| => itens[j].(id := Some(n0 + j)))
  }

  /** `atualizar` as its comments describe it ("remove the old items", "add the new items"): as
      `Atualizacao`, and for a non-empty list the order's old item rows are removed and the new
      items are saved under the next item ids. */
  function AtualizacaoGravada(s: Snapshot, id: nat, upd: PedidoUpdate): (Snapshot, Result<Order, Error>)
  {
    if Atualizacao(s, id, upd).1.Err? || |upd.itens| == 0 then Atualizacao(s, id, upd)
    else GravarItens(Atualizacao(s, id, upd).0, id, Atualizacao(s, id, upd).1.value)
  }

  /** The item rows of order `id` in state `t` replaced by the items of entity `novo`, saved under
      the next item ids; the entity takes the saved rows. */
  function GravarItens(t: Snapshot, id: nat, novo: Order): (Snapshot, Result<Order, Error>)
  {
    var rows := Numerados(novo.itens, t.itemNext);
    (t.(itens := Appended(SemItensDe(t.itens, id), t.itemNext, rows), itemNext := t.itemNext + |rows|),
     Ok(novo.(itens := rows)))
  }

  /** With the corrected update, repeating the same update on a still pending order succeeds and
      leaves the stock where the first one left it: it gives back exactly what the first took. */
  lemma AtualizacaoGravadaRepetida(s: Snapshot, id: nat, upd: PedidoUpdate)
    requires KeyedItems(s.itens, s.itemNext)
    requires AtualizacaoGravada(s, id, upd).1.Ok? && |upd.itens| > 0
    ensures var t := AtualizacaoGravada(s, id, upd).0;
            && id in t.pedidos
            && (t.pedidos[id].status == PENDENTE ==>
                  && AtualizacaoGravada(t, id, upd).1.Ok?
                  && AtualizacaoGravada(t, id, upd).0.produtos == t.produtos)
  {
    var t := AtualizacaoGravada(s, id, upd).0;
    GravadaCheia(s, id, upd);
    assert t.produtos == Replace(Devolvido(s, id), upd.itens).value;
    assert NovoEstoque(t.produtos, Carregados(t, id), upd.itens) == Replace(Devolvido(t, id), upd.itens);
  }

  /** The corrected update keeps what the service means to: afterwards the order loads as the
      entity the update returned, and giving its items back (as a repeated update does, or a
      deletion where the schema allows it) restores exactly the stock that giving them back
      before the update did. */
  lemma AtualizacaoGravadaSpec(s: Snapshot, id: nat, upd: PedidoUpdate)
    requires Tabela(s.pedidos, s.pedidoNext) && KeyedItems(s.itens, s.itemNext)
    requires AtualizacaoGravada(s, id, upd).1.Ok?
    ensures var (t, r) := AtualizacaoGravada(s, id, upd);
            && id in t.pedidos && Carregado(t, id) == r.value
            && Devolvido(t, id) == Devolvido(s, id)
  {
    if |upd.itens| > 0 {
      GravadaCheia(s, id, upd);
    }
  }

  /** `AtualizacaoGravadaSpec` for a non-empty item list. */
  lemma GravadaCheia(s: Snapshot, id: nat, upd: PedidoUpdate)
    requires KeyedItems(s.itens, s.itemNext)
    requires AtualizacaoGravada(s, id, upd).1.Ok? && |upd.itens| > 0
    ensures var (t, r) := AtualizacaoGravada(s, id, upd);
            && id in t.pedidos && Carregado(t, id) == r.value
            && Devolvido(t, id) == Devolvido(s, id)
  {
    var t0 := Atualizacao(s, id, upd).0;
    var novo := Atualizacao(s, id, upd).1.value;
    NovoEstoqueValid(s.produtos, Carregados(s, id), upd.itens);
    assert novo.itens == PricedItems(s.produtos, id, upd.itens);
    PricedItemsLines(s.produtos, id, upd.itens);
    GravarItensSpec(s, id, upd.itens, t0, novo);
  }

  /** The items priced for `linhas` carry those lines and name order `pedidoId`. */
  lemma PricedItemsLines(c: Catalog, pedidoId: nat, linhas: seq<Line>)
    requires AllValid(c, linhas)
    ensures Lines(PricedItems(c, pedidoId, linhas)) == linhas
    ensures forall j :: 0 <= j < |linhas| ==> PricedItems(c, pedidoId, linhas)[j].pedidoId == Some(pedidoId)
  {
  }

  /** Saving the items of the updated entity `novo` of order `id`, priced for lines `novas`, into
      the state `t0` the update left: the order loads as the returned entity, and giving its
      items back returns what the update took. */
  lemma GravarItensSpec(s: Snapshot, id: nat, novas: seq<Line>, t0: Snapshot, novo: Order)
    requires KeyedItems(s.itens, s.itemNext) && |novas| > 0
    requires Lines(novo.itens) == novas && forall j :: 0 <= j < |novo.itens| ==> novo.itens[j].pedidoId == Some(id)
    requires t0.itens == s.itens && t0.itemNext == s.itemNext
    requires id in t0.pedidos && t0.pedidos[id] == novo.Row()
    requires Replace(Devolvido(s, id), novas).Ok? && t0.produtos == Replace(Devolvido(s, id), novas).value
    ensures var (t, r) := GravarItens(t0, id, novo);
            && id in t.pedidos && Carregado(t, id) == r.value
            && Devolvido(t, id) == Devolvido(s, id)
  {
    var (t, r) := GravarItens(t0, id, novo);
    GravarItensCarrega(t0, id, novo);
    NumeradosLines(novo.itens, t0.itemNext);
    GravadaDevolve(s, id, novas, t, r.value.itens);
  }

  /** Saving the items of entity `novo` of order `id` into state `t0` keeps the order and stock
      tables, and the order then loads as the returned entity, with exactly the saved rows. */
  lemma GravarItensCarrega(t0: Snapshot, id: nat, novo: Order)
    requires KeyedItems(t0.itens, t0.itemNext)
    requires forall j :: 0 <= j < |novo.itens| ==> novo.itens[j].pedidoId == Some(id)
    requires id in t0.pedidos && t0.pedidos[id] == novo.Row()
    ensures var (t, r) := GravarItens(t0, id, novo);
            && t.pedidos == t0.pedidos && t.produtos == t0.produtos
            && r.Ok? && r.value.itens == Numerados(novo.itens, t0.itemNext)
            && Carregados(t, id) == r.value.itens
            && Carregado(t, id) == r.value
  {
    var t := GravarItens(t0, id, novo).0;
    GravadaCarrega(t0.itens, t0.itemNext, id, novo.itens, t.itens);
  }

  /** Renumbering items keeps their lines. */
  lemma NumeradosLines(itens: seq<Item>, n0: nat)
    ensures Lines(Numerados(itens, n0)) == Lines(itens)
  {
  }

  /** Once order `id` loads exactly the saved rows for lines `novas`, and the stock is that of the
      update loop run on the stock with its old items given back, giving its items back returns
      what the update took. */
  lemma GravadaDevolve(s: Snapshot, id: nat, novas: seq<Line>, t: Snapshot, rows: seq<Item>)
    requires |novas| > 0 && Carregados(t, id) == rows && Lines(rows) == novas
    requires Replace(Devolvido(s, id), novas).Ok? && t.produtos == Replace(Devolvido(s, id), novas).value
    ensures Devolvido(t, id) == Devolvido(s, id)
  {
    RestoreUndoesReplace(Devolvido(s, id), novas);
  }

  /** After the old rows of order `id` are removed and its items are saved under the next ids,
      the order loads exactly those saved rows. */
  lemma GravadaCarrega(m: map<nat, Item>, n0: nat, id: nat, itens: seq<Item>, t: map<nat, Item>)
    requires KeyedItems(m, n0)
    requires forall j :: 0 <= j < |itens| ==> itens[j].pedidoId == Some(id)
    requires t == Appended(SemItensDe(m, id), n0, Numerados(itens, n0))
    ensures ItensDe(t, id, n0 + |itens|) == Numerados(itens, n0)
  {
    AppendedCarrega(SemItensDe(m, id), n0, Numerados(itens, n0), id);
  }

  /** The order table is well formed: every stored row carries its own key as id, and that
      key was handed out already. */
  ghost predicate Tabela(pedidos: map<nat, OrderRow>, nextId: nat)
  {
    forall k :: k in pedidos ==> pedidos[k].id == k && k < nextId
  }

  /** Storing a row under the next id keeps the table well formed. */
  lemma TabelaInsere(pedidos: map<nat, OrderRow>, nextId: nat, o: OrderRow)
    requires Tabela(pedidos, nextId) && o.id == nextId
    ensures nextId !in pedidos && Tabela(pedidos[nextId := o], nextId + 1)
  {
  }

  /** Replacing a stored row by one with the same id keeps the table well formed. */
  lemma TabelaSubstitui(pedidos: map<nat, OrderRow>, nextId: nat, o: OrderRow)
    requires Tabela(pedidos, nextId) && o.id in pedidos
    ensures Tabela(pedidos[o.id := o], nextId)
  {
  }
}
