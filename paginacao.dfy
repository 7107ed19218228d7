/** The page size the bed and patient listings accept. */
module Paginacao {

  /** The requested page size clamped to 1..100; a size already in range is kept. */
  function PorPagina(pedido: int): (r: int)
    ensures 1 <= r <= 100
    ensures 1 <= pedido <= 100 ==> r == pedido
    ensures pedido < 1 ==> r == 1
    ensures pedido > 100 ==> r == 100
  {
    var minimo := if pedido > 1 then pedido else 1;
    if minimo < 100 then minimo else 100
  }
}
