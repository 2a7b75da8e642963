/**
 * The router's route table and its global `beforeEach` guard. The guard is
 * a decision over the target's `meta.requiresAuth` and the auth store's
 * `isAuthenticated`; its one call to `next` is the `Next` value it returns.
 */
module Router {
  import opened Std
  import opened Json
  import opened Auth

  /** A route record: path pattern, optional name and view, `meta`, and an optional redirect. */
  datatype RouteRecord = RouteRecord(
    path: string,
    name: Option<string>,
    view: Option<string>,
    meta: map<string, Value>,
    redirect: Option<string>)

  const LoginPath := "/login"

  /** The `meta` of every protected page: `{ requiresAuth: true }`. */
  const AuthMeta: map<string, Value> := map["requiresAuth" := Bool(true)]

  /** A named page that declares `requiresAuth: true`. */
  function Protected(path: string, name: string, view: string): RouteRecord
  {
    RouteRecord(path, Some(name), Some(view), AuthMeta, None)
  }

  /** A bare redirect record: no name, no view, no meta. */
  function RedirectRecord(path: string, target: string): RouteRecord
  {
    RouteRecord(path, None, None, map[], Some(target))
  }

  /** The route table, in declaration order. */
  const Routes: seq<RouteRecord> := [
    RouteRecord(LoginPath, Some("Login"), Some("LoginPage"), map[], None),
    Protected("/habitaciones", "Habitaciones", "RoomList"),
    Protected("/habitaciones/nueva", "NuevaHabitacion", "RoomForm"),
    Protected("/huespedes", "Huespedes", "GuestManager"),
    Protected("/reservas", "Reservas", "ReservationManager"),
    Protected("/check-in", "CheckInDirecto", "DirectCheckIn"),
    RedirectRecord("/", "/habitaciones"),
    Protected("/inventario", "Inventario", "InventoryManager"),
    Protected("/reservas/:id", "DetalleReserva", "ReservationDetail"),
    Protected("/huespedes/:id/editar", "EditarHuesped", "GuestEdit"),
    Protected("/habitaciones/:id/editar", "EditarHabitacion", "RoomEdit"),
    Protected("/limpieza", "Limpieza", "HousekeepingTasks"),
    Protected("/huespedes/:id/historial", "HistorialHuesped", "GuestHistory"),
    Protected("/personal", "Personal", "StaffManager"),
    Protected("/reservas/:id/cuenta", "VerCuenta", "BillView"),
    Protected("/dashboard", "Dashboard", "DashboardView"),
    RedirectRecord("/", "/dashboard")
  ]

  /** What the guard passes to `next`: nothing (proceed) or a path to go to instead. */
  datatype Next = Proceed | RedirectTo(path: string)

  /** `to.meta.requiresAuth`, tested for truthiness. */
  predicate RequiresAuth(meta: map<string, Value>): (r: bool)
    ensures r <==> "requiresAuth" in meta && Truthy(meta["requiresAuth"])
  {
    Truthy(Get(Obj(meta), "requiresAuth"))
  }

  /** The `beforeEach` guard for a target whose `meta` is `toMeta`, in session `s`. */
  function Guard(toMeta: map<string, Value>, s: Session): (r: Next)
    ensures r == RedirectTo(LoginPath) <==> RequiresAuth(toMeta) && !s.IsAuthenticated()
    ensures r == Proceed <==> !RequiresAuth(toMeta) || s.IsAuthenticated()
  {
    if RequiresAuth(toMeta) && !s.IsAuthenticated() then RedirectTo(LoginPath) else Proceed
  }

  /** An authenticated session may go anywhere. */
  lemma AuthenticatedProceedsEverywhere(toMeta: map<string, Value>, s: Session)
    requires s.IsAuthenticated()
    ensures Guard(toMeta, s) == Proceed
  {
  }

  /** A target without a truthy `requiresAuth` is open to every session. */
  lemma OpenTargetProceeds(toMeta: map<string, Value>, s: Session)
    requires "requiresAuth" !in toMeta || !Truthy(toMeta["requiresAuth"])
    ensures Guard(toMeta, s) == Proceed
  {
  }

  /**
   * The guard's only redirect is to the login page, and it depends on the
   * session only through `isAuthenticated`: there is no superuser check.
   */
  lemma GuardIgnoresAllButAuthentication(toMeta: map<string, Value>, s1: Session, s2: Session)
    requires s1.IsAuthenticated() == s2.IsAuthenticated()
    ensures Guard(toMeta, s1) == Guard(toMeta, s2)
    ensures Guard(toMeta, s1).RedirectTo? ==> Guard(toMeta, s1).path == LoginPath
  {
  }

  /**
   * The login page's record has no `meta`, so the guard lets every session
   * reach it: the redirect it issues can never be redirected again.
   */
  lemma LoginRouteNeverRedirects(s: Session)
    ensures forall i :: 0 <= i < |Routes| && Routes[i].path == LoginPath ==> Guard(Routes[i].meta, s) == Proceed
  {
  }

  /** Every named record except `Login` declares `requiresAuth: true`; so does no unnamed one. */
  lemma NamedRoutesRequireAuth()
    ensures forall i :: 0 <= i < |Routes| && Routes[i].name.Some? && Routes[i].name != Some("Login") ==> Routes[i].meta == AuthMeta
    ensures forall i :: 0 <= i < |Routes| && Routes[i].name.None? ==> Routes[i].meta == map[] && Routes[i].redirect.Some?
  {
  }

  /** An unauthenticated session is sent to the login page from every named page but `Login`. */
  lemma ProtectedPagesRedirectAnonymous(s: Session)
    requires !s.IsAuthenticated()
    ensures forall i :: 0 <= i < |Routes| && Routes[i].name.Some? && Routes[i].name != Some("Login") ==> Guard(Routes[i].meta, s) == RedirectTo(LoginPath)
  {
    NamedRoutesRequireAuth();
  }

  /** Route names are pairwise distinct. */
  lemma RouteNamesDistinct()
    ensures forall i, j :: 0 <= i < j < |Routes| && Routes[i].name.Some? ==> Routes[i].name != Routes[j].name
  {
  }
}
