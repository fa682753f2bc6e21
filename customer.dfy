/**
 * The shop's customer account. Its entity class is not part of this model, so the row carries
 * the fields the authentication controller reads and writes; `username` is the key.
 */
module Customers {

  datatype Customer = Customer(
    username: string,
    email: string,
    password: string,
    firstName: string,
    isActive: bool)
}
