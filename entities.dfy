/** The records the frontend receives from the REST API and keeps in its lists. */
module Entities {
  import opened Wrappers

  /** A computer or console; `status` is one of 'Available', 'In Use', 'Maintenance' as the API sends it. */
  datatype Machine = Machine(id: int, name: string, machineType: string, hourlyRate: real, status: string)

  /** A user account as listed to administrators. */
  datatype UserRow = UserRow(id: int, username: string, balance: real)

  /**
   * An active-session snapshot. A field the API leaves out is None;
   * `startTime` is in milliseconds since the epoch.
   */
  datatype ActiveSession = ActiveSession(
    id: int,
    userId: Option<int>,
    startTime: Option<int>,
    hourlyRate: Option<real>,
    userBalance: Option<real>)

  /** A friend card as the API returns it. */
  datatype Friend = Friend(
    id: int,
    name: string,
    role: string,
    description: string,
    gender: string,
    imgUrl: Option<string>,
    createdBy: Option<int>)

  /** A balance transaction shown on the profile page. */
  datatype Transaction = Transaction(id: int, timestamp: int, transactionType: string, description: string, amount: real)

  function MachineId(m: Machine): int { m.id }
  function UserId(u: UserRow): int { u.id }
  function SessionId(s: ActiveSession): int { s.id }
  function FriendId(f: Friend): int { f.id }
}
