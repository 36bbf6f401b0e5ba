/** The order status machine of `PedidoService.validarAlteracaoStatus`. */
module StatusRules {
  import opened Results
  import opened Domain

  /** The transition table: the statuses each status may move to. */
  function Successors(s: Status): set<Status>
  {
    match s
    case PENDENTE => {APROVADO, CANCELADO}
    case APROVADO => {ENTREGUE, CANCELADO}
    case CANCELADO => {}
    case ENTREGUE => {}
  }

  /** How far along its life an order is; every allowed transition moves forward. */
  function Stage(s: Status): nat
  {
    match s
    case PENDENTE => 0
    case APROVADO => 1
    case CANCELADO => 2
    case ENTREGUE => 2
  }

  /** The check as the service writes it, a switch on the current status. It agrees with the
      table, every refusal is a BadRequest naming the current status, and an accepted
      transition always moves the order forward. */
  function ValidarAlteracaoStatus(atual: Status, novo: Status): (r: Outcome<Error>)
    ensures r.Pass? <==> novo in Successors(atual)
    ensures r.Fail? ==> r.error == BadRequest(InvalidTransition(atual))
    ensures r.Pass? ==> Stage(atual) < Stage(novo)
  {
    match atual
    case PENDENTE =>
      if novo != APROVADO && novo != CANCELADO then Fail(BadRequest(InvalidTransition(atual))) else Pass
    case APROVADO =>
      if novo != ENTREGUE && novo != CANCELADO then Fail(BadRequest(InvalidTransition(atual))) else Pass
    case CANCELADO => Fail(BadRequest(InvalidTransition(atual)))
    case ENTREGUE => Fail(BadRequest(InvalidTransition(atual)))
  }

  /** CANCELADO and ENTREGUE are final, a same-status request is refused, and nothing returns
      to PENDENTE. */
  lemma TerminalAndIrreflexive(atual: Status, novo: Status)
    ensures atual == CANCELADO || atual == ENTREGUE ==> ValidarAlteracaoStatus(atual, novo).Fail?
    ensures ValidarAlteracaoStatus(atual, atual).Fail?
    ensures ValidarAlteracaoStatus(atual, PENDENTE).Fail?
  {
  }

  /** A chain of accepted transitions is at most two steps long: the status machine has no cycle. */
  lemma NoThirdStep(a: Status, b: Status, c: Status, d: Status)
    requires ValidarAlteracaoStatus(a, b).Pass? && ValidarAlteracaoStatus(b, c).Pass?
    ensures ValidarAlteracaoStatus(c, d).Fail?
  {
  }
}
