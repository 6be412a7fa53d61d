/** The two record kinds the API stores, without their store-assigned id. */
module Models {
  import opened Wrappers

  /** A floating-point reward. Nothing computes with it, so it is left uninterpreted. */
  type Reward

  /** The fields of a user besides its id; `description` is optional. */
  datatype User = User(name: string, job: string, description: Option<string>)

  /** The fields of a mission besides its id. The boolean keeps the source's
      spelling, `successfull`; `target` is optional; `agent` is a free-text name. */
  datatype Mission = Mission(
    title: string,
    target: Option<string>,
    successfull: bool,
    reward: Reward,
    agent: string)
}
