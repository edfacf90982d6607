/** The rows the application reads and writes (the `Database` type of src/lib/supabase.ts
    and the interfaces of src/hooks/useAuth.tsx). Timestamps are integers that order as
    the ISO texts the backend returns; a plan price is an integer number of cents. */
module Domain {
  import opened Wrappers

  /** The `user_role` enum */
  datatype Role = SuperAdmin | EmpresaAdmin

  /** An authenticated user of the auth provider; only the id is read */
  datatype User = User(id: string)

  /** An auth session, carrying its user when it has one */
  datatype Session = Session(user: Option<User>)

  /** A `user_profiles` row */
  datatype Profile = Profile(id: string, role: Role)

  /** A `companies` row */
  datatype Company = Company(
    id: string,
    userId: string,
    name: string,
    email: string,
    whatsapp: string,
    address: Option<string>,
    planId: Option<string>,
    active: bool,
    createdAt: int,
    updatedAt: int)

  /** A `plans` row */
  datatype Plan = Plan(id: string, name: string, price: int, active: bool, createdAt: int)
}
