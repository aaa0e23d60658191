/** The records the store, the service and the CRM exchange. */
module Domain {

  /** One row of the `registrations` table. */
  datatype Registration = Registration(id: int, token: string, used: bool)

  /** One row of the `token_usage` table: who consumed a token. */
  datatype TokenUsage = TokenUsage(id: int, token: string, username: string, phone: string)

  /** A loyalty-program member as submitted through the web form. */
  datatype Client = Client(name: string, phone: string, birthday: string, sex: int)
}
