/** The form keys and fixed values of the processor's request bodies. */
module Constants {

  const Amount: string := "amount"
  const Currency: string := "currency"
  const AutomaticPaymentMethod: string := "automatic_payment_methods[enabled]"
  const PaymentMethod: string := "payment_method"
  const PmVisaCard: string := "pm_card_visa"
  const ReturnUrl: string := "return_url"
}
