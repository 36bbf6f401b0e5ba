/** The entities and requests the services exchange, as values. */
module Domain {
  import opened Results
  import opened JavaInt
  import opened Money

  /** `PedidoEntity.StatusPedido`. */
  datatype Status = PENDENTE | APROVADO | CANCELADO | ENTREGUE

  /** The entity named by a `ResourceNotFoundException`. */
  datatype Resource = Produto | Pedido | ItemPedido

  /** Which message a `BadRequestException` or `RuntimeException` carries. */
  datatype Reason =
    | EmptyItems
    | NonPositiveQuantity
    | InsufficientStock(produto: string)
    | ProductNotInformed
    | NotPendingUpdate
    | NotPendingDelete
    | InvalidTransition(from: Status)

  /** The three kinds of exception the services throw. */
  datatype Error =
    | NotFound(resource: Resource, id: nat)
    | BadRequest(reason: Reason)
    | RuntimeFailure(reason: Reason)

  /** A product (`ProdutoEntity`); `id` is null until the store assigns one. */
  datatype Product = Product(
    id: Option<nat>, nome: string, descricao: string, preco: int, quantidadeEstoque: int32)

  /** An order item as persisted: its product is referenced by id, its unit price is a snapshot. */
  datatype Item = Item(
    id: Option<nat>, pedidoId: Option<nat>, produtoId: nat,
    quantidade: int32, precoUnitario: int, valorTotal: int)

  /** A row of the order table: the order's own columns. Its items are not part of it; they are
      the rows of the item table that carry the order's id. */
  datatype OrderRow = OrderRow(id: nat, cliente: string, observacao: string, valorTotal: int, status: Status)

  /** An order entity as the service hands it out: its row and its item list, in list order. */
  datatype Order = Order(
    id: nat, cliente: string, observacao: string, valorTotal: int, status: Status, itens: seq<Item>)
  {
    /** The row `pedidoRepository.save` writes for this entity; the item list is not written. */
    function Row(): OrderRow
    {
      OrderRow(id, cliente, observacao, valorTotal, status)
    }
  }

  /** One requested line: a product id and a quantity (`ItemPedidoRequest`). */
  datatype Line = Line(produtoId: nat, quantidade: int32)

  /** The body of an order creation (`PedidoRequest`); `valorTotal` and `status` are carried
      but, as in the service, never used for the stored order. */
  datatype PedidoRequest = PedidoRequest(
    cliente: string, observacao: string, valorTotal: int, status: Option<string>, itens: seq<Line>)

  /** The fields of the `PedidoEntity` passed to an order update; an empty `itens`
      stands for both a null and an empty list, which the service treats alike. */
  datatype PedidoUpdate = PedidoUpdate(
    cliente: string, observacao: string, status: Option<Status>, itens: seq<Line>)

  /** The (product, quantity) lines of a list of items. */
  function Lines(itens: seq<Item>): (r: seq<Line>)
  {
    seq(|itens|, i requires 0 <= i < |itens| => Line(itens[i].produtoId, itens[i].quantidade))
  }

  /** The item totals, in list order. */
  function Totals(itens: seq<Item>): (r: seq<int>)
  {
    seq(|itens|, i requires 0 <= i < |itens| => itens[i].valorTotal)
  }

  /** The aggregate invariant of a stored order: every item belongs to it, has a positive
      quantity and total = unit price x quantity, and the order total is the sum of the item totals. */
  ghost predicate Consistent(o: Order)
  {
    && o.valorTotal == Sum(Totals(o.itens))
    && forall i :: 0 <= i < |o.itens| ==>
         && o.itens[i].pedidoId == Some(o.id)
         && o.itens[i].quantidade > 0
         && o.itens[i].valorTotal == o.itens[i].precoUnitario * o.itens[i].quantidade
  }
}
