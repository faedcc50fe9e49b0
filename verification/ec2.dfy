/** The two inventory records the tool reads. Only the fields it uses are
    kept: an instance's private address and its ordered tag list. */
module Ec2 {

  /** A key/value tag attached to an instance. */
  datatype Tag = Tag(key: string, value: string)

  /** A running instance as returned by the inventory query. */
  datatype Instance = Instance(privateIp: string, tags: seq<Tag>)

  /** A reservation groups the instances launched together. */
  type Reservation = seq<Instance>
}
