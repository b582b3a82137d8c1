/** Names within the project of a tenant. */
module Keys {
  datatype Space = Space(tenant: string, project: string)
  datatype Key = Key(space: Space, id: string)
}
