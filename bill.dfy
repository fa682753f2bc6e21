/** The `Bill` entity: the receipt written when a cashier approves an order. */
module Bills {
  import opened Wrappers
  import opened Money

  /** One stored row of the `bills` table. */
  datatype BillRecord = BillRecord(
    id: int,
    paymentId: int,
    orderId: int,
    username: string,
    productNames: string,
    productQuantities: string,
    subtotal: Decimal,
    total: Decimal,
    bankName: string,
    bankAccountNumber: string,
    createdAt: Time)

  class Bill {
    var id: Option<int>
    var paymentId: int
    var orderId: int
    var username: string
    var productNames: string
    var productQuantities: string
    var subtotal: Decimal
    var total: Decimal
    var bankName: string
    var bankAccountNumber: string
    var createdAt: Time

    /** `new Bill(paymentId, orderId, username, productNames, productQuantities, subtotal, total, bankName, bankAccountNumber)`, created now. */
    constructor (paymentId: int, orderId: int, username: string, productNames: string,
                 productQuantities: string, subtotal: Decimal, total: Decimal,
                 bankName: string, bankAccountNumber: string, now: Time)
      ensures id.None? && createdAt == now
      ensures this.paymentId == paymentId && this.orderId == orderId && this.username == username
      ensures this.productNames == productNames && this.productQuantities == productQuantities
      ensures this.subtotal == subtotal && this.total == total
      ensures this.bankName == bankName && this.bankAccountNumber == bankAccountNumber
    {
      id := None;
      this.paymentId := paymentId;
      this.orderId := orderId;
      this.username := username;
      this.productNames := productNames;
      this.productQuantities := productQuantities;
      this.subtotal := subtotal;
      this.total := total;
      this.bankName := bankName;
      this.bankAccountNumber := bankAccountNumber;
      createdAt := now;
    }

    /** The row `save` writes for this entity. */
    function Record(): BillRecord
      reads this
      requires id.Some?
    {
      BillRecord(id.value, paymentId, orderId, username, productNames, productQuantities,
                 subtotal, total, bankName, bankAccountNumber, createdAt)
    }
  }

  /**
   * `getMaskedAccountNumber`: at most four characters are shown as they are; a longer number
   * shows `****` followed by its last four characters.
   */
  function MaskedAccountNumber(n: Option<string>): (r: Option<string>)
    ensures n.None? ==> r.None?
    ensures n.Some? && |n.value| <= 4 ==> r == n
    ensures n.Some? && |n.value| > 4 ==>
      r.Some? && |r.value| == 8 && r.value[..4] == "****" && r.value[4..] == n.value[|n.value| - 4..]
  {
    if n.None? || |n.value| <= 4 then n
    else Some("****" + n.value[|n.value| - 4..])
  }

  /** Masking a masked number changes nothing, and a number's last four characters always survive. */
  lemma MaskingIdempotent(n: Option<string>)
    ensures MaskedAccountNumber(MaskedAccountNumber(n)) == MaskedAccountNumber(n)
    ensures n.Some? && |n.value| >= 4 ==>
      var m := MaskedAccountNumber(n).value;
      m[|m| - 4..] == n.value[|n.value| - 4..]
  {
    if n.Some? && |n.value| > 4 {
      var m := MaskedAccountNumber(n).value;
      assert m[|m| - 4..] == m[4..];
      assert MaskedAccountNumber(Some(m)) == Some("****" + m[4..]);
      assert "****" + m[4..] == m by {
        assert m == m[..4] + m[4..];
      }
    }
  }
}
