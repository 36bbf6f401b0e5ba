/** `ProdutoService`: the product repository behind lookups, saves, field updates,
    the checked stock decrement and deletion. */
module Produtos {
  import opened Results
  import opened JavaInt
  import opened Domain
  import opened Stock

  /** Every stored product carries its own key as id, and that key was handed out already. */
  ghost predicate KeyedCatalog(produtos: Catalog, nextId: nat)
  {
    forall k :: k in produtos ==> produtos[k].id == Some(k) && k < nextId
  }

  class ProdutoService {
    /** The product table, by id. */
    var produtos: Catalog
    /** The next id the identity column hands out. */
    var nextId: nat

    ghost predicate Valid()
      reads this
    {
      KeyedCatalog(produtos, nextId)
    }

    constructor()
      ensures Valid()
      ensures produtos == map[] && nextId == 1
    {
      produtos := map[];
      nextId := 1;
    }

    /** `buscarPorId`: the stored product, or `ResourceNotFoundException("Produto", id)`. */
    method BuscarPorId(id: nat) returns (r: Result<Product, Error>)
      requires Valid()
      ensures r.Ok? <==> id in produtos
      ensures r.Ok? ==> r.value == produtos[id] && r.value.id == Some(id)
      ensures r.Err? ==> r.error == NotFound(Produto, id)
    {
      if id in produtos {
        r := Ok(produtos[id]);
      } else {
        r := Err(NotFound(Produto, id));
      }
    }

    /** `salvar`: a product whose id is stored overwrites that row; any other product is
        inserted under a fresh id. The saved product is what a later lookup returns. */
    method Salvar(p: Product) returns (saved: Product)
      requires Valid()
      modifies this
      ensures Valid()
      ensures saved.id.Some? && saved.id.value in produtos && produtos[saved.id.value] == saved
      ensures saved == p.(id := saved.id)
      ensures p.id.Some? && p.id.value in old(produtos) ==>
                saved == p && produtos == old(produtos)[p.id.value := p] && nextId == old(nextId)
      ensures !(p.id.Some? && p.id.value in old(produtos)) ==>
                && saved.id == Some(old(nextId))
                && old(nextId) !in old(produtos)
                && produtos == old(produtos)[old(nextId) := saved]
                && nextId == old(nextId) + 1
    {
      if p.id.Some? && p.id.value in produtos {
        saved := p;
        produtos := produtos[p.id.value := p];
      } else {
        saved := p.(id := Some(nextId));
        produtos := produtos[nextId := saved];
        nextId := nextId + 1;
      }
    }

    /** `atualizar`: copies name, description, price and stock onto the stored product,
        keeping its id; nothing else changes. */
    method Atualizar(id: nat, novo: Product) returns (r: Result<Product, Error>)
      requires Valid()
      modifies this
      ensures Valid() && nextId == old(nextId)
      ensures r.Err? <==> id !in old(produtos)
      ensures r.Err? ==> r.error == NotFound(Produto, id) && produtos == old(produtos)
      ensures r.Ok? ==>
                && r.value == novo.(id := Some(id))
                && produtos == old(produtos)[id := r.value]
    {
      var existente := BuscarPorId(id);
      if existente.Err? {
        return Err(existente.error);
      }
      var p := existente.value.(nome := novo.nome, descricao := novo.descricao,
                                preco := novo.preco, quantidadeEstoque := novo.quantidadeEstoque);
      produtos := produtos[id := p];
      r := Ok(p);
    }

    /** `atualizarEstoque(id, q)`: `stock - q` in `int` arithmetic, refused when negative;
        on refusal nothing changes. */
    method AtualizarEstoque(id: nat, q: int32) returns (r: Outcome<Error>)
      requires Valid()
      modifies this
      ensures Valid() && nextId == old(nextId)
      ensures r.Pass? <==> Decrement(old(produtos), id, q).Ok?
      ensures r.Pass? ==> produtos == Decrement(old(produtos), id, q).value
      ensures r.Fail? ==> r.error == Decrement(old(produtos), id, q).error && produtos == old(produtos)
    {
      var found := BuscarPorId(id);
      if found.Err? {
        return Fail(found.error);
      }
      var p := found.value;
      var novoEstoque := SubInt(p.quantidadeEstoque, q);
      if novoEstoque < 0 {
        return Fail(RuntimeFailure(InsufficientStock(p.nome)));
      }
      produtos := produtos[id := p.(quantidadeEstoque := novoEstoque)];
      r := Pass;
    }

    /** `excluir`: removes a stored product, or reports it missing. */
    method Excluir(id: nat) returns (r: Outcome<Error>)
      requires Valid()
      modifies this
      ensures Valid() && nextId == old(nextId)
      ensures r.Pass? <==> id in old(produtos)
      ensures r.Pass? ==> produtos == old(produtos) - {id} && id !in produtos
      ensures r.Fail? ==> r.error == NotFound(Produto, id) && produtos == old(produtos)
    {
      var found := BuscarPorId(id);
      if found.Err? {
        return Fail(found.error);
      }
      produtos := produtos - {id};
      r := Pass;
    }
  }
}
