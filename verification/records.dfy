/**
 * The rows of the four tables (`users`, `assets`, `maintenance_logs`, `maintenance_schedules`),
 * the request payloads the services accept, and the errors they throw.
 *
 * Timestamps and dates are instants (milliseconds); costs are integer cents. Identifiers are
 * plain integers: the tables' SERIAL keys start at 1.
 */
module Records {
  import opened Wrappers

  /** A row of `users`. */
  datatype User = User(id: int, username: string, email: string, passwordHash: string, createdAt: int, updatedAt: int)

  /** What the user service hands back: every column except the password hash. */
  datatype UserPublic = UserPublic(id: int, username: string, email: string, createdAt: int)

  function PublicUser(u: User): UserPublic {
    UserPublic(u.id, u.username, u.email, u.createdAt)
  }

  /** A row of `assets`; `userId` is the owner. */
  datatype Asset = Asset(id: int, userId: int, name: string, description: Option<string>, createdAt: int, updatedAt: int)

  /** A row of `maintenance_logs`; it belongs to whoever owns the asset `assetId`. */
  datatype MaintenanceLog = MaintenanceLog(
    id: int, assetId: int, serviceName: string, serviceDate: int,
    description: Option<string>, cost: Option<int>, createdAt: int, updatedAt: int)

  /** A row of `maintenance_schedules`; it belongs to whoever owns the asset `assetId`. */
  datatype MaintenanceSchedule = MaintenanceSchedule(
    id: int, assetId: int, logId: Option<int>, serviceName: string, dueDate: Option<int>,
    dueCondition: Option<string>, isCompleted: bool, createdAt: int, updatedAt: int)

  /*
   * Request payloads. An optional JavaScript property becomes:
   *  - `Option<string>` where the service only asks whether the value is truthy
   *    (None for undefined or null, Some("") for the empty string);
   *  - `Patch<Option<T>>` where the service asks `!== undefined`
   *    (Absent for undefined, Present(None) for null, Present(Some(v)) for a value);
   *  - a date the service converts with `new Date(...)` only when truthy is an
   *    `Option<int>` whose None stands for every falsy value.
   */

  datatype UserCreateData = UserCreateData(username: string, email: string, password: string)
  datatype UserUpdateData = UserUpdateData(username: Option<string>, email: Option<string>, password: Option<string>)

  datatype AssetCreateData = AssetCreateData(name: string, description: Option<string>)
  datatype AssetUpdateData = AssetUpdateData(name: Option<string>, description: Option<string>)

  datatype LogCreateData = LogCreateData(
    assetId: int, serviceName: string, serviceDate: int, description: Option<string>, cost: Option<int>)
  datatype LogUpdateData = LogUpdateData(
    assetId: Patch<Option<int>>, serviceName: Option<string>, serviceDate: Option<int>,
    description: Patch<Option<string>>, cost: Patch<Option<int>>)

  datatype ScheduleCreateData = ScheduleCreateData(
    assetId: int, serviceName: string, logId: Option<int>, dueDate: Option<int>,
    dueCondition: Option<string>, isCompleted: Option<bool>)
  datatype ScheduleUpdateData = ScheduleUpdateData(
    serviceName: Option<string>, dueDate: Patch<Option<int>>, dueCondition: Patch<Option<string>>,
    isCompleted: Patch<bool>, logId: Patch<Option<int>>)

  /** A string that JavaScript treats as true: present and non-empty. */
  predicate Given(s: Option<string>) {
    s.Some? && s.value != ""
  }

  /** A number that JavaScript treats as true: present and non-zero. */
  predicate GivenId(n: Option<int>) {
    n.Some? && n.value != 0
  }

  /** `s || null` on a string. */
  function StringOrNull(s: Option<string>): Option<string> {
    if Given(s) then s else None
  }

  /** `n || null` on a number. */
  function IdOrNull(n: Option<int>): Option<int> {
    if GivenId(n) then n else None
  }

  /** The errors the services throw. */
  datatype Error =
    | AssetNotFound
    | NewAssetNotFound
    | LogNotFound
    | ScheduleNotFound
    | NothingToUpdate
    | UserNotFound
    | UsernameOrEmailTaken
    | NegativeLimit
  {
    /** The message of the thrown `Error`, which the client shows as is. */
    function Message(): string {
      match this
      case AssetNotFound => "Ativo não encontrado ou não pertence ao usuário"
      case NewAssetNotFound => "Novo ativo não encontrado ou não pertence ao usuário"
      case LogNotFound => "Registro de manutenção não encontrado ou não pertence ao usuário"
      case ScheduleNotFound => "Agendamento não encontrado ou não pertence ao usuário"
      case NothingToUpdate => "Nenhum dado fornecido para atualização"
      case UserNotFound => "Usuário não encontrado"
      case UsernameOrEmailTaken => "Username ou email já estão em uso"
      case NegativeLimit => "LIMIT must not be negative"
    }
  }
}
