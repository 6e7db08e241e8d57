/** HTTP replies sent with `res.status(code).send(body)`. */
module Http {
  import opened Json

  datatype Body =
    | ErrorBody(error: string)                      // { error }
    | DatasetBody(message: string, dataset: Dataset) // { message, dataset: { id, data } }

  datatype Reply = Reply(status: nat, body: Body)
}
