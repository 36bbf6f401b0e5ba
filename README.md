# Order and stock bookkeeping of the `sistema.pedidos` service, in Dafny

This project models the service layer of a Spring order-management backend. The model covers:

- products with a stock quantity (`ProdutoService`);
- order items whose unit price is a snapshot of the product's price (`ItemPedidoService`);
- orders (`PedidoService`), which move through a four-state status machine and reconcile the
  product stock when they are created, updated and deleted;
- the in-memory aggregates `entity.PedidoEntity` / `entity.ItemPedidoEntity` and their older
  duplicates `model.Pedido` / `model.ItemPedido`. Each keeps "item total = unit price x
  quantity" and "order total = sum of item totals" through its setters and list operations.

The framework is replaced by plain state:

- Each service is a class. It holds its repository as a `map` from id to row, plus the identity
  counter that hands out ids. `PedidoService` holds the two other services as fields, as the
  injected beans are.
- Stored rows are values (`Product`, `Item`, `OrderRow`). An order row holds only the order's
  own columns. The order's items are the item rows that carry its id, because the entity's
  item list is a read-only association over the item table's `pedido_id` column
  (PedidoEntity.java:40-42). A loaded order (`Order`) is its row plus those rows, in id order.
- The entity classes are Dafny classes whose setters update fields in place.
- `BigDecimal` amounts are exact integers.
- Java `int` quantities are the `int32` subset type. `stock - q` and `stock + q` wrap around
  exactly as Java's 32-bit arithmetic does (`AddInt`, `SubInt`, `Wrap32`).
- A thrown exception is an `Err`/`Fail` value of `Result`/`Outcome`.
- The `@Transactional` rollback is an explicit restore of every table the failing call touched.

Module layout:

- `Results`, `JavaInt`, `Money`, `Domain`: values, Java `int` arithmetic and sums.
- `StatusRules`: `validarAlteracaoStatus` and the transition table.
- `Stock`: the stock effect of each loop, as functions of the product table.
  - `Decrement` is `atualizarEstoque`.
  - `DecrementAll` is the creation loop.
  - `RestoreAll` is the give-back loop of update and delete.
  - `Replace` is the checked new-items loop of update.
  - `FirstInvalid` and `CreateError` give the errors of the creation checks.
- `Produtos`, `ItensPedido`, `Pedidos`: the three services, as classes with imperative methods.
- `Entity`, `Model`: the two aggregate class pairs.
- `PedidoSpec`: each order operation as a function from a `Snapshot` of all repositories to the
  new snapshot and the result.
  - `Criar` is order creation, `Atualizacao` is order update and `Exclusao` is order deletion.
  - `Carregado` is an order as a transaction loads it: its row and `Carregados`, its item rows.
  - `CriarSpec` and `AtualizacaoSpec` state what these functions promise.
  - The loop-state predicates (`Validados`, `Gravados`, `Substituidos`) carry the loop proofs.

`PedidoService.Salvar`, `PedidoService.Atualizar` and `PedidoService.Excluir` are proved to
produce exactly the state and result of `Criar`, `Atualizacao` and `Exclusao`. `AtualizarStatus`
states its effect directly.

Where the prose description of the system and the code disagree, the model follows the code:

- Creation never applies the request's status. A stored order is always PENDENTE, because the
  entity constructor sets it and `salvar` only re-sets PENDENTE when the request's status is
  null (PedidoService.java:68, 81-83).
- Creation checks every line against the stock as it was before any decrement
  (PedidoService.java:205-218). Two lines for the same product can therefore both pass, and the
  later decrement then fails with the plain `RuntimeException` of `atualizarEstoque`
  (ProdutoService.java:60-62), not a BadRequest.
- Deleting an order does not remove its item rows. The order entity's item association has no
  cascade (PedidoEntity.java:40-42), and `excluir` never calls the item repository.
- The items built by an update are added to the order but are never saved through the item
  service. They keep a null id (PedidoService.java:146-154). Because the association is
  read-only, they are lost once the transaction ends: the order loads its old item rows again,
  while the stock already holds the new quantities. `Atualizacao` models this as written;
  "## Findings" shows the drift it causes and proves the evident intent separately.
- The standalone item update and delete operations, with their PENDENTE guard, are commented out
  in `ItemPedidoService`, so they are not modelled.
- Giving stock back (`stock + quantidade`, PedidoService.java:126 and 189) is Java `int`
  addition. It can wrap around, so "stock is never negative" is not an invariant of the code.

## Model

| member | source | states |
|---|---|---|
| StatusRules.ValidarAlteracaoStatus | src/main/java/com/sistema/pedidos/service/PedidoService.java:234-256 | the switch accepts exactly PENDENTE→{APROVADO, CANCELADO} and APROVADO→{ENTREGUE, CANCELADO}; every refusal is a BadRequest naming the current status; an accepted transition always moves the order to a later stage |
| StatusRules.TerminalAndIrreflexive | src/main/java/com/sistema/pedidos/service/PedidoService.java:249-252 | CANCELADO and ENTREGUE accept no transition, a same-status request is refused, and no status goes back to PENDENTE |
| StatusRules.NoThirdStep | src/main/java/com/sistema/pedidos/service/PedidoService.java:234-256 | after two accepted transitions no third one is accepted: the status machine has no cycle |
| JavaInt.IntOpsWrap | src/main/java/com/sistema/pedidos/service/ProdutoService.java:58 | Java `int` addition and subtraction give the 32-bit two's-complement wrap of the exact result |
| Stock.Decrement | src/main/java/com/sistema/pedidos/service/ProdutoService.java:55-66 | a missing product is NotFound; when `stock - q` does not overflow, the call succeeds exactly when `q <= stock`; on success the new stock is `stock - q`, is never negative, and every other product and field is unchanged; a refusal is a RuntimeException naming the product |
| Stock.DecrementAllFits | src/main/java/com/sistema/pedidos/service/PedidoService.java:89-95 | for positive quantities of stored products with non-negative stock, the creation loop succeeds exactly when no product is asked for more than its stock in total; it then lowers each stock by exactly that product's total demand and changes nothing else; otherwise it fails with the runtime exception |
| Stock.DecrementAllWrapped | src/main/java/com/sistema/pedidos/service/PedidoService.java:89-95 | any successful creation loop lowers each product's stock by its total demand in `int` arithmetic and changes nothing but stocks |
| Stock.RestoreAllWrapped | src/main/java/com/sistema/pedidos/service/PedidoService.java:186-191 | the give-back loop raises each stored product's stock by its total demand in `int` arithmetic and changes nothing but stocks |
| Stock.RestoreUndoesDecrement | src/main/java/com/sistema/pedidos/service/PedidoService.java:186-191 | giving back the lines a successful creation loop took restores the product table exactly, wrap-around included |
| Stock.FirstInvalidNone | src/main/java/com/sistema/pedidos/service/PedidoService.java:205-218 | the creation checks report no error exactly when every line passes its check (product found, quantity positive, quantity within the unchanged stock) |
| Stock.ReplaceShape | src/main/java/com/sistema/pedidos/service/PedidoService.java:134-158 | a successful new-items loop of update lowers each stock by exactly its total demand and changes nothing else |
| Stock.ReplaceErrors | src/main/java/com/sistema/pedidos/service/PedidoService.java:135-143 | the new-items loop fails only with NotFound or BadRequest, and only with BadRequest when every product is stored |
| Stock.ReplaceFits | src/main/java/com/sistema/pedidos/service/PedidoService.java:134-158 | the new-items loop succeeds exactly when every line names a stored product with a positive quantity and no product is oversubscribed in total |
| Stock.CreateErrorSpec | src/main/java/com/sistema/pedidos/service/PedidoService.java:66-99 | creation is accepted exactly for a non-empty list of valid lines that fits the stock in total; its stock effect is then the exact total demand |
| Stock.CreateAgreesWithReplace | src/main/java/com/sistema/pedidos/service/PedidoService.java:205-218 | creation and the update's new-items loop accept the same non-empty line lists and then leave the same stock |
| Stock.OversubscriptionIsRuntimeFailure | src/main/java/com/sistema/pedidos/service/ProdutoService.java:60-62 | lines that each fit the stock but together oversubscribe a product make creation fail with the runtime exception, while the update loop refuses them with a BadRequest |
| Stock.ResubmitSameLines | src/main/java/com/sistema/pedidos/service/PedidoService.java:122-158 | updating a freshly created order with its own lines succeeds and leaves the stock the creation left |
| Stock.UpdateStockEffect | src/main/java/com/sistema/pedidos/service/PedidoService.java:122-158 | after the give-back and the new-items loop, each stock is the old stock plus the old demand (in `int` arithmetic) minus the new demand, and nothing else changed |
| Stock.RestoreUndoesReplace | src/main/java/com/sistema/pedidos/service/PedidoService.java:122-158 | giving back the lines a successful non-empty new-items loop took restores the product table exactly |
| Stock.DecrementAllErrSticks | src/main/java/com/sistema/pedidos/service/PedidoService.java:89-95 | the first failing decrement is the failure of the whole creation loop |
| Stock.ReplaceErrSticks | src/main/java/com/sistema/pedidos/service/PedidoService.java:134-158 | the first failing line is the failure of the whole new-items loop |
| Stock.FirstInvalidSticks | src/main/java/com/sistema/pedidos/service/PedidoService.java:205-218 | the first failing check is the error of the whole list |
| Produtos.ProdutoService.BuscarPorId | src/main/java/com/sistema/pedidos/service/ProdutoService.java:27-31 | returns the stored product exactly when the id is stored, and NotFound("Produto", id) otherwise |
| Produtos.ProdutoService.Salvar | src/main/java/com/sistema/pedidos/service/ProdutoService.java:38-41 | a product with a stored id overwrites that row; any other product is inserted under the next id; a later lookup finds the saved product |
| Produtos.ProdutoService.Atualizar | src/main/java/com/sistema/pedidos/service/ProdutoService.java:43-53 | a missing id is NotFound with nothing changed; otherwise the stored row gets exactly the new name, description, price and stock, keeps its id, and no other row changes |
| Produtos.ProdutoService.AtualizarEstoque | src/main/java/com/sistema/pedidos/service/ProdutoService.java:55-66 | succeeds exactly when `Decrement` does and leaves its table; a refusal leaves the table unchanged |
| Produtos.ProdutoService.Excluir | src/main/java/com/sistema/pedidos/service/ProdutoService.java:68-72 | removes exactly the given product when it is stored, and otherwise is NotFound with nothing changed |
| ItensPedido.ItemPedidoService.BuscarPorId | src/main/java/com/sistema/pedidos/service/ItemPedidoService.java:34-38 | returns the stored item exactly when the id is stored, and NotFound("ItemPedido", id) otherwise |
| ItensPedido.ItemPedidoService.BuscarPorPedido | src/main/java/com/sistema/pedidos/service/ItemPedidoService.java:40-43 | exactly the stored items whose order id matches, unchanged |
| ItensPedido.ItemPedidoService.BuscarPorProduto | src/main/java/com/sistema/pedidos/service/ItemPedidoService.java:45-48 | exactly the stored items whose product id matches, unchanged |
| ItensPedido.ItensDeSpec | src/main/java/com/sistema/pedidos/entity/PedidoEntity.java:40-42 | the items an order loads are stored rows under their own ids, all carrying the order's id, in strictly increasing id order, and every stored row carrying that id is among them |
| ItensPedido.ItemPedidoService.Salvar | src/main/java/com/sistema/pedidos/service/ItemPedidoService.java:50-67 | no product or no product id is BadRequest; then a non-positive quantity is BadRequest; then a missing product is NotFound; each failure saves nothing; otherwise the row takes the stored product's current price, with total = price x quantity, and is stored under the item's id or a fresh one; products never change |
| Entity.ItemPedidoEntity.constructor | src/main/java/com/sistema/pedidos/entity/ItemPedidoEntity.java:52-56 | quantity 0, unit price 0, total 0 |
| Entity.ItemPedidoEntity.ComProduto | src/main/java/com/sistema/pedidos/entity/ItemPedidoEntity.java:58-64 | the unit price is the product's price and the total is price x quantity |
| Entity.ItemPedidoEntity.Completo | src/main/java/com/sistema/pedidos/entity/ItemPedidoEntity.java:66-72 | uses the given price, not the product's, leaves the order id null, and computes the total from price and quantity |
| Entity.ItemPedidoEntity.CalcularValorTotal | src/main/java/com/sistema/pedidos/entity/ItemPedidoEntity.java:75-81 | total = unit price x quantity, or 0 when either is null; nothing else changes |
| Entity.ItemPedidoEntity.SetProduto | src/main/java/com/sistema/pedidos/entity/ItemPedidoEntity.java:96-102 | a product copies its price into the unit price and recomputes the total; null leaves price and total as they were |
| Entity.ItemPedidoEntity.SetQuantidade | src/main/java/com/sistema/pedidos/entity/ItemPedidoEntity.java:108-111 | sets the quantity and re-establishes total = price x quantity |
| Entity.ItemPedidoEntity.SetPrecoUnitario | src/main/java/com/sistema/pedidos/entity/ItemPedidoEntity.java:117-120 | sets the unit price and re-establishes total = price x quantity |
| Entity.ItemPedidoEntity.SetId | src/main/java/com/sistema/pedidos/entity/ItemPedidoEntity.java:88-90 | sets the id; every other field is unchanged |
| Entity.ItemPedidoEntity.SetPedidoId | src/main/java/com/sistema/pedidos/entity/ItemPedidoEntity.java:26-28 | sets the order id; every other field, the total included, is unchanged |
| Entity.ItemPedidoEntity.SetValorTotal | src/main/java/com/sistema/pedidos/entity/ItemPedidoEntity.java:30-32 | sets the total as given, the one setter that does not keep total = price x quantity |
| Entity.ItemEqualsById | src/main/java/com/sistema/pedidos/entity/ItemPedidoEntity.java:127-138 | two items are equal exactly when their ids are equal; this is an equivalence, and equal items have equal hash codes |
| Entity.IndexById | src/main/java/com/sistema/pedidos/entity/PedidoEntity.java:78 | the position `List.remove` removes: the first item with the argument's id, or none |
| Entity.PedidoEntity.constructor | src/main/java/com/sistema/pedidos/entity/PedidoEntity.java:49-53 | status PENDENTE, total 0, no items |
| Entity.PedidoEntity.ComCliente | src/main/java/com/sistema/pedidos/entity/PedidoEntity.java:55-59 | the defaults above plus the given client and note |
| Entity.PedidoEntity.Completo | src/main/java/com/sistema/pedidos/entity/PedidoEntity.java:61-68 | stores the given total as is, without recomputing |
| Entity.PedidoEntity.RecalcularValorTotal | src/main/java/com/sistema/pedidos/entity/PedidoEntity.java:83-87 | total = sum of the item totals (0 for no items); the list is unchanged |
| Entity.PedidoEntity.SetItens | src/main/java/com/sistema/pedidos/entity/PedidoEntity.java:142-145 | replaces the list and re-establishes total = sum of item totals |
| Entity.PedidoEntity.AdicionarItem | src/main/java/com/sistema/pedidos/entity/PedidoEntity.java:71-75 | appends the item at the end, sets its order id to this order's id, and the total grows by exactly the item's total; the order's id, status, client and note and the item's other fields are unchanged |
| Entity.PedidoEntity.RemoverItem | src/main/java/com/sistema/pedidos/entity/PedidoEntity.java:77-81 | removes the first item with the argument's id, keeping the others in order, or nothing; clears the argument's order id; the total drops by exactly the removed item's total; the order's id, status, client and note and the item's other fields are unchanged |
| Entity.OrderEqualsById | src/main/java/com/sistema/pedidos/entity/PedidoEntity.java:148-159 | two orders are equal exactly when their ids are equal; this is an equivalence, and equal orders have equal hash codes |
| Model.ItemPedido.constructor | src/main/java/com/sistema/pedidos/model/ItemPedido.java:40-44 | quantity 0, unit price 0, total 0 |
| Model.ItemPedido.ComProduto | src/main/java/com/sistema/pedidos/model/ItemPedido.java:46-52 | the unit price is the product's price and the total is price x quantity |
| Model.ItemPedido.Completo | src/main/java/com/sistema/pedidos/model/ItemPedido.java:54-61 | stores the given order reference and price and computes the total from them |
| Model.ItemPedido.CalcularValorTotal | src/main/java/com/sistema/pedidos/model/ItemPedido.java:64-70 | total = unit price x quantity, or 0 when either is null |
| Model.ItemPedido.SetId | src/main/java/com/sistema/pedidos/model/ItemPedido.java:77-79 | sets the id; every other field is unchanged |
| Model.ItemPedido.SetPedido | src/main/java/com/sistema/pedidos/model/ItemPedido.java:85-87 | sets the order back-reference; every other field, the total included, is unchanged |
| Model.ItemPedido.SetProduto | src/main/java/com/sistema/pedidos/model/ItemPedido.java:93-99 | a product copies its price and recomputes the total; null leaves price and total as they were |
| Model.ItemPedido.SetQuantidade | src/main/java/com/sistema/pedidos/model/ItemPedido.java:105-108 | sets the quantity and re-establishes total = price x quantity |
| Model.ItemPedido.SetPrecoUnitario | src/main/java/com/sistema/pedidos/model/ItemPedido.java:114-117 | sets the unit price and re-establishes total = price x quantity |
| Model.ItemEqualsById | src/main/java/com/sistema/pedidos/model/ItemPedido.java:124-135 | equality of items is id equality, an equivalence consistent with the hash code |
| Model.IndexById | src/main/java/com/sistema/pedidos/model/Pedido.java:76 | the position `List.remove` removes: the first item with the argument's id, or none |
| Model.Pedido.constructor | src/main/java/com/sistema/pedidos/model/Pedido.java:47-51 | status PENDENTE, total 0, no items |
| Model.Pedido.ComCliente | src/main/java/com/sistema/pedidos/model/Pedido.java:53-57 | the defaults above plus the given client and note |
| Model.Pedido.Completo | src/main/java/com/sistema/pedidos/model/Pedido.java:59-66 | stores the given total as is |
| Model.Pedido.RecalcularValorTotal | src/main/java/com/sistema/pedidos/model/Pedido.java:81-85 | total = sum of the item totals (0 for no items) |
| Model.Pedido.SetItens | src/main/java/com/sistema/pedidos/model/Pedido.java:140-143 | replaces the list and re-establishes total = sum of item totals |
| Model.Pedido.AdicionarItem | src/main/java/com/sistema/pedidos/model/Pedido.java:69-73 | appends the item, points its back-reference at this order (keeping every listed item pointing back), and the total grows by the item's total; the order's id, status, client and note and the item's other fields are unchanged |
| Model.Pedido.RemoverItem | src/main/java/com/sistema/pedidos/model/Pedido.java:75-79 | removes the first item with the argument's id, keeping the others in order; clears the argument's back-reference; the total drops by the removed item's total; the order's id, status, client and note and the item's other fields are unchanged |
| Model.OrderEqualsById | src/main/java/com/sistema/pedidos/model/Pedido.java:146-157 | equality of orders is id equality, an equivalence consistent with the hash code |
| PedidoSpec.PricedForConsistent | src/main/java/com/sistema/pedidos/service/PedidoService.java:145-151 | items priced for the lines carry those lines and belong to the order; each has a positive quantity, the product's price as its unit price, and total = price x quantity |
| PedidoSpec.DescrevemTotais | src/main/java/com/sistema/pedidos/service/PedidoService.java:227-229 | the totals of the validated item entities are the totals of the lines priced from the stock, so the order total is their sum |
| PedidoSpec.ValidadosStep | src/main/java/com/sistema/pedidos/service/PedidoService.java:205-225 | one more line passing its check extends the checked prefix of the validation loop |
| PedidoSpec.ValidadosFalha | src/main/java/com/sistema/pedidos/service/PedidoService.java:212-218 | the first line failing its check gives the error of the whole list |
| PedidoSpec.GravadosStep | src/main/java/com/sistema/pedidos/service/PedidoService.java:89-95 | one more turn of the creation loop: the line is decremented and its row, priced against the initial stock, is stored under the next consecutive item id |
| PedidoSpec.GravadosErr | src/main/java/com/sistema/pedidos/service/PedidoService.java:94 | a failing decrement in the creation loop is the failure of the whole loop |
| PedidoSpec.SubstituidosStep | src/main/java/com/sistema/pedidos/service/PedidoService.java:134-158 | one more turn of the update's new-items loop: the line is checked against the stock the earlier lines left, priced and decremented |
| PedidoSpec.CriadoDe | src/main/java/com/sistema/pedidos/service/PedidoService.java:89-98 | a completed creation loop yields an order satisfying the aggregate invariant, whose items are the lines priced against the initial stock and stored under consecutive ids |
| PedidoSpec.GravacaoSpec | src/main/java/com/sistema/pedidos/service/PedidoService.java:85-98 | storing checked lines fails exactly when the decrement loop does, with its error and the state rolled back; otherwise it stores a consistent order under the next id, with its rows and stock as the loop leaves them |
| PedidoSpec.GravacaoOk | src/main/java/com/sistema/pedidos/service/PedidoService.java:85-98 | the state a completed creation loop and the order insert leave is exactly the success of `Gravacao` |
| PedidoSpec.CriarSpec | src/main/java/com/sistema/pedidos/service/PedidoService.java:66-99 | creation fails exactly as `CreateError` says (empty list, first failing check, first failing decrement), and then the state is rolled back; otherwise it stores a PENDENTE order with the request's client, note and lines; the order table stays well formed |
| PedidoSpec.CriarExcluir | src/main/java/com/sistema/pedidos/service/PedidoService.java:177-194 | when no item row already names the new order's id, a created order loads exactly as it was returned, it is PENDENTE so it can be deleted, and, on a schema without the item rows' foreign key, deleting it gives the stock and the order table back exactly as they were before the creation |
| PedidoSpec.GravouExcluir | src/main/java/com/sistema/pedidos/service/PedidoService.java:186-193 | after a stored creation, the order loads as stored, and removing it and giving back its loaded items' quantities restores the earlier stock and order table |
| PedidoSpec.GravouCarrega | src/main/java/com/sistema/pedidos/entity/PedidoEntity.java:40-42 | the item rows a creation appended are, in their order, exactly the items the new order loads |
| PedidoSpec.AtualizacaoSpec | src/main/java/com/sistema/pedidos/service/PedidoService.java:101-165 | an update fails exactly as `UpdateError` says (missing order, not PENDENTE, forbidden status change, first failing new line), with nothing changed; otherwise only the stock and that order's row change, and the row keeps the table well formed; the returned entity has the new client, note and status and the sum of its items as total; an empty list keeps the loaded items; a non-empty list becomes its items, priced against the stock before the update, with the aggregate invariant; the order still loads its old item rows |
| PedidoSpec.AtualizacaoMantemAntigos | src/main/java/com/sistema/pedidos/service/PedidoService.java:122-164 | after a successful update with new items the order still loads its old item rows, so a later give-back (a repeated update, or a deletion where the schema allows it) returns the old quantities to a stock that holds the new ones |
| PedidoSpec.AtualizacaoDesvio | src/main/java/com/sistema/pedidos/service/PedidoService.java:122-164 | on stock 10, creating (product 1, 2) leaves 8 and updating to (product 1, 5) leaves 5 while the order still loads (product 1, 2); on a schema without the item rows' foreign key, deleting afterwards leaves 7, where deleting before the update left 10 |
| PedidoSpec.AtualizacaoRepetida | src/main/java/com/sistema/pedidos/service/PedidoService.java:122-164 | repeating that update succeeds, gives back the old 2 units again and takes 5, leaving 2 in stock, and the order still loads (product 1, 2) |
| PedidoSpec.AtualizacaoGravadaRepetida | src/main/java/com/sistema/pedidos/service/PedidoService.java:122-164 | with the new items saved in place of the old rows, repeating an update with new items on a still pending order succeeds and leaves the stock exactly where the first update left it |
| PedidoSpec.AtualizacaoGravadaSpec | src/main/java/com/sistema/pedidos/service/PedidoService.java:122-164 | with the new items saved in place of the old rows, the order loads as the returned entity, and giving its items back (a repeated update, or a deletion where the schema allows it) leaves the stock that giving them back before the update left |
| PedidoSpec.AtualizacaoOk | src/main/java/com/sistema/pedidos/service/PedidoService.java:110-164 | the order and state that the update steps build are exactly the success of `Atualizacao` |
| Pedidos.PedidoService.BuscarPorId | src/main/java/com/sistema/pedidos/service/PedidoService.java:44-49 | returns the order exactly when its id is stored, and NotFound("Pedido", id) otherwise; the entity is the stored row with exactly the stored item rows that carry its id |
| Pedidos.PedidoService.ValidarItem | src/main/java/com/sistema/pedidos/service/PedidoService.java:206-222 | the line passes exactly when its check does, and fails with that check's error; on success a fresh item entity carries the line priced from the product |
| Pedidos.PedidoService.ValidarLinhas | src/main/java/com/sistema/pedidos/service/PedidoService.java:205-225 | the loop succeeds exactly when no line fails its check against the unchanged stock, and otherwise fails with the first failing line's error; on success it returns one fresh, distinct, priced entity per line |
| Pedidos.PedidoService.ValidarItensPedido | src/main/java/com/sistema/pedidos/service/PedidoService.java:197-232 | refuses an empty list, then the first failing line; on success the order holds one priced entity per line and its total is their sum; client, note, id and status are unchanged |
| Pedidos.PedidoService.GravarItem | src/main/java/com/sistema/pedidos/service/PedidoService.java:90-94 | the item is saved under the next item id with the order's id and the product's price; its decrement succeeds exactly when `Decrement` does; later items are untouched |
| Pedidos.PedidoService.GravarItens | src/main/java/com/sistema/pedidos/service/PedidoService.java:89-95 | the loop succeeds exactly when the decrement loop over all lines does, and fails with its error; on success every row is saved under consecutive ids and the stock is that of the decrement loop |
| Pedidos.PedidoService.Salvar | src/main/java/com/sistema/pedidos/service/PedidoService.java:66-99 | the new state and result are exactly those of `Criar` on the state before the call |
| Pedidos.PedidoService.Persistir | src/main/java/com/sistema/pedidos/service/PedidoService.java:85-98 | the new state and result are exactly those of `Gravacao`, including the rollback of a failing decrement |
| Pedidos.PedidoService.Desfazer | src/main/java/com/sistema/pedidos/service/PedidoService.java:66 | the rollback restores every table to its state when the transaction began |
| Pedidos.PedidoService.InserirPedido | src/main/java/com/sistema/pedidos/service/PedidoService.java:86 | the order is stored under the next order id, which the entity takes; with the completed loop this is `Gravacao`'s success |
| Pedidos.PedidoService.RestaurarEstoque | src/main/java/com/sistema/pedidos/service/PedidoService.java:187-191 | the stock becomes `RestoreAll` of the given lines; nothing else changes |
| Pedidos.PedidoService.AdicionarNovo | src/main/java/com/sistema/pedidos/service/PedidoService.java:135-157 | the line is accepted exactly when its check against the current stock passes, and then is priced and decremented; a refusal leaves the stock unchanged |
| Pedidos.PedidoService.AdicionarNovos | src/main/java/com/sistema/pedidos/service/PedidoService.java:134-158 | the loop succeeds exactly when `Replace` does, and fails with its error; on success the stock is `Replace`'s and the items are the lines priced against the stock before the loop, unsaved |
| Pedidos.PedidoService.SubstituirItens | src/main/java/com/sistema/pedidos/service/PedidoService.java:122-158 | gives the old items back, then runs the new-items loop; it succeeds exactly when `Replace` after the give-back does; on failure the stock is as before the call |
| Pedidos.PedidoService.Atualizar | src/main/java/com/sistema/pedidos/service/PedidoService.java:101-165 | the new state and result are exactly those of `Atualizacao` on the state before the call |
| Pedidos.PedidoService.GravarAtualizacao | src/main/java/com/sistema/pedidos/service/PedidoService.java:161-164 | writing the rebuilt order's row completes `Atualizacao`'s success and keeps the order table well formed |
| Pedidos.PedidoService.AtualizarStatus | src/main/java/com/sistema/pedidos/service/PedidoService.java:167-175 | a missing order is NotFound and a forbidden transition is that transition's BadRequest, both with nothing changed; otherwise only the status in that order's row changes, whether or not it is PENDENTE, and the loaded order with the new status is returned |
| Pedidos.PedidoService.Excluir | src/main/java/com/sistema/pedidos/service/PedidoService.java:177-194 | the new state and outcome are exactly those of `Exclusao`, on a schema without the item rows' foreign key: a missing order is NotFound and a non-PENDENTE one is BadRequest, both with nothing changed; otherwise its row is removed and the quantities of the items it loads go back to the stock; the item table is untouched |

## Left out

- The list and search queries (`buscarTodos`, `buscarPorCliente`, `buscarPorPeriodo`, `buscarPorStatus`, `buscarPorNome`) are not modelled. They pass straight through to the repository, and the substring searches depend on locale case folding.
- Timestamps (`dataPedido`, `LocalDateTime.now()`) are not modelled, because they read the clock.
- Controllers, the exception handler, Swagger configuration and bean validation annotations are not part of this model.
- ORM effects other than the read-only item association are left out: cascades, dirty checking of loaded products and the merge of a detached entity with an unknown id. `save` is an insert or an overwrite of the row with that id.
- Giving stock back to a product that was deleted meanwhile is skipped (`Restore`). In the code, the lazy product reference would fail or resurrect the row.
- Null references are not modelled, except where the code branches on them (item product, quantity and price, the update's status and items). A null or an empty new-items list in an update are one case, as in the code.
- ItensPedido.ItemPedidoService.Salvar: requires a non-null quantity. The Java code would throw a `NullPointerException` when unboxing a null quantity.
- Pedidos.PedidoService.Persistir: the order row is inserted after its items are saved and decremented, while the code inserts it first. Inside one transaction the tables end the same. One difference remains: identity columns do not give ids back on rollback. In the code a creation that fails in the decrement loop has taken an order id and item ids. In the model, `Desfazer` rewinds the item id counter and the order id is never taken.
- Pedidos.PedidoService.Excluir / PedidoSpec.Exclusao: the model follows a schema without a foreign key from `itens_pedido.pedido_id` to the order table. Hibernate generates that key for the join column at PedidoEntity.java:40-42 when it creates the schema, as the test profile has it do (`ddl-auto=create-drop`). `excluir` never deletes the order's item rows and, with `updatable=false`, cannot clear their order id. So on the generated schema the code's deletion of an order that has item rows, which every order created by `salvar` has, is refused at commit, and the whole transaction, stock give-back included, rolls back. `PedidoSpec.CriarExcluir` and `PedidoSpec.GravouExcluir` state the deletion without the key.
- Foreign keys are not modelled. An item row saved through the item service under an order id not yet handed out would be loaded by the order that later takes that id. `PedidoSpec.CriarExcluir` therefore requires that no item row names the next order id.
- The order in which the lazy association loads item rows is taken to be id order. Nothing in the code fixes it; no property here depends on it except the item order of a loaded entity.
- The rollback of a failed transaction is an explicit restore of the tables the call changed. The transaction manager itself is not modelled.
- Concurrency and isolation between simultaneous transactions are not modelled.
- Java's `equals` class check (`getClass() != o.getClass()`) is not modelled, because each Dafny class is compared only with its own kind.

## Findings

| source | as written | input that shows it | evidently intended | confidence | as-written member | corrected member |
|---|---|---|---|---|---|---|
| src/main/java/com/sistema/pedidos/service/PedidoService.java:122-164 with src/main/java/com/sistema/pedidos/entity/PedidoEntity.java:40-42 | `atualizar` with new items gives the old items' stock back, takes the new quantities off and puts the new items in the entity's list. The list is a read-only association with no cascade and the items are never saved, so the order keeps loading its old item rows. | Product 1 with stock 10. Create an order with (product 1, 2): stock 8. Update it to (product 1, 5): stock 5, returned total 5. Repeat the same update: the old 2 units come back again and 5 go, so the stock is 2 although the order holds 5 units. | The comments say the old items are removed and the new ones added. The new items should be saved as the order's rows in place of the old ones. The order then loads as returned, and repeating the update leaves the stock at 5. | not executed | PedidoSpec.AtualizacaoRepetida | PedidoSpec.AtualizacaoGravadaRepetida |

`PedidoSpec.AtualizacaoMantemAntigos` states the drift for every input, and `PedidoSpec.AtualizacaoDesvio` shows the first update of the example. `PedidoSpec.AtualizacaoGravadaSpec` states the corrected update's meaning for every input. `PedidoSpec.AtualizacaoGravada` is the corrected update: the same checks and stock effect, with the order's old item rows removed and the new items saved under the next item ids. The service method `Pedidos.PedidoService.Atualizar` is proved against the update as written.
