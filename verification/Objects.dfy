/** Identities of the protocol objects the session tells apart. */
module Objects {

  /** A connected client. */
  type Client = nat

  /** A surface's role is permanent, and so is its client. `X11Role` marks the
      windows XWayland manages; their client is XWayland. */
  datatype Role = ToplevelRole | PopupRole | LockRole | X11Role | OtherRole

  datatype Surface = Surface(client: Client, role: Role, id: nat)

  /** An `ext_session_lock_v1` object. */
  datatype LockObject = LockObject(client: Client, id: nat)

  /** Serials, without wrap-around. */
  type Serial = nat
}
