/** Values shared by every layer: an optional value (TypeScript's `T | null`
    and optional properties), the three roles and the authenticated caller
    as the JWT strategy hands it to the rest of the system. */
module Common {

  /** `T | null` / `T | undefined`. */
  datatype Option<+T> = None | Some(value: T) {
    function GetOr(default: T): T {
      match this
      case Some(v) => v
      case None => default
    }
  }

  /** The role enum of the auth library. */
  datatype Role = OWNER | ADMIN | VIEWER

  /** The authenticated principal of one request (request-user.interface.ts). */
  datatype RequestUser = RequestUser(userId: string, role: Role, orgId: string)
}
