/**
 * The backend's AdminService: admin accounts and the latest tax and insurance
 * settings. The settings repositories hold settings in creation order, so the
 * latest one is the last.
 */
module AdminService {
  import opened Common
  import opened Entities
  import opened Store

  datatype AdminRegisterRequest = AdminRegisterRequest(
    username: string,
    email: string,
    password: string,
    name: string,
    phoneNumber: string)

  const AdminRole: string := "ROLE_ADMIN"

  /**
   * registerAdmin's checks, in order, and the new user and admin records.
   */
  function RegisterAdminSpec(users: map<string, User>, roles: set<string>, req: AdminRegisterRequest, userId: string)
    : (r: Result<(User, Admin)>)
    ensures r.Success? <==> !UsernameTaken(users, req.username) && !EmailTaken(users, req.email) && AdminRole in roles
    ensures UsernameTaken(users, req.username) ==> r == Failure(ApiError("Username already exists!"))
    ensures !UsernameTaken(users, req.username) && EmailTaken(users, req.email) ==>
              r == Failure(ApiError("Email already exists!"))
    ensures r.Success? ==> r.value.0.active && r.value.0.role == AdminRole
                           && r.value.0.username == req.username && r.value.0.email == req.email
                           && r.value.0.password == Encoded(req.password) && r.value.1.userId == userId
  {
    if UsernameTaken(users, req.username) then Failure(ApiError("Username already exists!"))
    else if EmailTaken(users, req.email) then Failure(ApiError("Email already exists!"))
    else if AdminRole !in roles then Failure(ApiError("Role not found : ROLE_ADMIN"))
    else Success((User(req.username, req.email, Encoded(req.password), AdminRole, true), Admin(userId, req.name, req.phoneNumber)))
  }

  /** registerAdmin: a new active ADMIN user and its admin profile, under fresh ids. */
  method RegisterAdmin(db: Db, req: AdminRegisterRequest, freshUserId: string, freshAdminId: string)
    returns (r: Result<string>)
    requires db.Valid()
    requires freshUserId !in db.users && freshAdminId !in db.admins
    modifies db`users, db`admins
    ensures db.Valid()
    ensures match RegisterAdminSpec(old(db.users), db.roles, req, freshUserId)
            case Success(ua) =>
              r == Success("Admin registered successfully!")
              && db.users == old(db.users)[freshUserId := ua.0]
              && db.admins == old(db.admins)[freshAdminId := ua.1]
            case Failure(e) => r == Failure(e) && db.users == old(db.users) && db.admins == old(db.admins)
  {
    if UsernameTaken(db.users, req.username) {
      return Failure(ApiError("Username already exists!"));
    }
    if EmailTaken(db.users, req.email) {
      return Failure(ApiError("Email already exists!"));
    }
    if AdminRole !in db.roles {
      return Failure(ApiError("Role not found : ROLE_ADMIN"));
    }
    var user := User(req.username, req.email, Encoded(req.password), AdminRole, true);
    db.users := db.users[freshUserId := user];
    var admin := Admin(freshUserId, req.name, req.phoneNumber);
    db.admins := db.admins[freshAdminId := admin];
    r := Success("Admin registered successfully!");
  }

  /** updateAdmin: name, phone, e-mail, username and password are overwritten without any check. */
  method UpdateAdmin(db: Db, adminId: string, req: AdminRegisterRequest) returns (r: Result<string>)
    requires db.Valid()
    modifies db`users, db`admins
    ensures db.Valid()
    ensures r.Failure? <==> adminId !in old(db.admins)
    ensures r.Failure? ==> r.error == NotFound("Admin not found with id: " + adminId)
                           && db.users == old(db.users) && db.admins == old(db.admins)
    ensures r.Success? ==>
              var uid := old(db.admins)[adminId].userId;
              db.admins == old(db.admins)[adminId := old(db.admins)[adminId].(name := req.name, phoneNumber := req.phoneNumber)]
              && db.users == old(db.users)[uid := old(db.users)[uid].(email := req.email, username := req.username,
                                                                      password := Encoded(req.password))]
  {
    if adminId !in db.admins {
      return Failure(NotFound("Admin not found with id: " + adminId));
    }
    var admin := db.admins[adminId];
    var user := db.users[admin.userId];
    db.users := db.users[admin.userId := user.(email := req.email, username := req.username, password := Encoded(req.password))];
    db.admins := db.admins[adminId := admin.(name := req.name, phoneNumber := req.phoneNumber)];
    r := Success("Admin updated");
  }

  /** deleteAdmin / activateAdmin: the admin's user flag, with their refusals. */
  function SetAdminActiveSpec(users: map<string, User>, admins: map<string, Admin>, adminId: string, flag: bool)
    : (r: Result<map<string, User>>)
    requires AdminProfiles(admins, users)
    ensures r.Failure? <==> adminId !in admins || users[admins[adminId].userId].active == flag
    ensures adminId !in admins ==> r == Failure(NotFound("Admin with id " + adminId + " not found"))
    ensures r.Success? ==> r.value == SetUserActive(users, admins[adminId].userId, flag)
  {
    if adminId !in admins then Failure(NotFound("Admin with id " + adminId + " not found"))
    else
      var uid := admins[adminId].userId;
      if users[uid].active == flag then
        if flag then Failure(ApiError("Admin with id " + adminId + " is already active "))
        else Failure(ApiError("Admin with id " + adminId + " is already inactive"))
      else Success(SetUserActive(users, uid, flag))
  }

  /** Deleting an admin and activating it again restores every user. */
  lemma DeleteThenActivateRestores(users: map<string, User>, admins: map<string, Admin>, adminId: string)
    requires AdminProfiles(admins, users)
    requires SetAdminActiveSpec(users, admins, adminId, false).Success?
    ensures SetAdminActiveSpec(SetAdminActiveSpec(users, admins, adminId, false).value, admins, adminId, true)
            == Success(users)
  {
    var uid := admins[adminId].userId;
    var off := SetUserActive(users, uid, false);
    assert SetUserActive(off, uid, true) == users;
  }

  method DeleteAdmin(db: Db, adminId: string) returns (r: Result<string>)
    requires db.Valid()
    modifies db`users
    ensures db.Valid()
    ensures match SetAdminActiveSpec(old(db.users), db.admins, adminId, false)
            case Success(u) => r == Success("Admin successfully deleted") && db.users == u
            case Failure(e) => r == Failure(e) && db.users == old(db.users)
  {
    if adminId !in db.admins {
      return Failure(NotFound("Admin with id " + adminId + " not found"));
    }
    var uid := db.admins[adminId].userId;
    if !db.users[uid].active {
      return Failure(ApiError("Admin with id " + adminId + " is already inactive"));
    }
    db.SetActive(uid, false);
    r := Success("Admin successfully deleted");
  }

  method ActivateAdmin(db: Db, adminId: string) returns (r: Result<string>)
    requires db.Valid()
    modifies db`users
    ensures db.Valid()
    ensures match SetAdminActiveSpec(old(db.users), db.admins, adminId, true)
            case Success(u) => r == Success("Admin successfully activated") && db.users == u
            case Failure(e) => r == Failure(e) && db.users == old(db.users)
  {
    if adminId !in db.admins {
      return Failure(NotFound("Admin with id " + adminId + " not found"));
    }
    var uid := db.admins[adminId].userId;
    if db.users[uid].active {
      return Failure(ApiError("Admin with id " + adminId + " is already active "));
    }
    db.SetActive(uid, true);
    r := Success("Admin successfully activated");
  }

  /** getLastTaxSetting: the latest percentage, or null when no setting was ever made. */
  function GetLastTaxSetting(settings: seq<TaxSetting>): (r: Option<real>)
    ensures r.None? <==> settings == []
    ensures r.Some? ==> r.value == settings[|settings| - 1].taxPercentage
  {
    if settings == [] then None else Some(settings[|settings| - 1].taxPercentage)
  }

  /** getLastInsuranceSetting: the latest three percentages, or null. */
  function GetLastInsuranceSetting(settings: seq<InsuranceSetting>): (r: Option<InsuranceSetting>)
    ensures r.None? <==> settings == []
    ensures r.Some? ==> r.value == settings[|settings| - 1]
  {
    if settings == [] then None else Some(settings[|settings| - 1])
  }

  /** A newer setting always supersedes the older ones. */
  lemma NewestSettingWins(settings: seq<TaxSetting>, s: TaxSetting)
    ensures GetLastTaxSetting(settings + [s]) == Some(s.taxPercentage)
  {
  }
}
