/** The account page (src/pages/Profile/index.tsx): the initial avatar URL and
    the rules of the change-password form. The form library runs every rule
    of a field and reports the messages of those that fail; a rule with a
    length bound but no `required` flag passes an empty value, and lengths
    are counted in code points, which is what `|s|` counts here. */
module ProfilePage {
  import opened Wrappers
  import Auth
  import Text
  import Uri

  const AvatarPrefix: string := "https://ui-avatars.com/api/?name="
  const AvatarSuffix: string := "&background=random&size=200"

  /** The name put into a generated avatar: the user's name, or "User"
      when there is no user or the name is empty. */
  function AvatarName(user: Option<Auth.User>): (name: string)
    ensures name != ""
    ensures user.Some? && user.value.name != "" ==> name == user.value.name
  {
    if user.Some? && user.value.name != "" then user.value.name else "User"
  }

  /** The initial `avatarUrl`: the user's own avatar when it is a non-empty
      string, otherwise a generated one. */
  function InitialAvatar(user: Option<Auth.User>): (url: string)
    ensures user.Some? && user.value.avatar.Some? && user.value.avatar.value != "" ==>
              url == user.value.avatar.value
    ensures !(user.Some? && user.value.avatar.Some? && user.value.avatar.value != "") ==>
              |url| >= |AvatarPrefix| + |AvatarSuffix| && Text.StartsWith(url, AvatarPrefix)
              && url[|AvatarPrefix|..|url| - |AvatarSuffix|] == Uri.EncodeUriComponent(AvatarName(user))
              && url[|url| - |AvatarSuffix|..] == AvatarSuffix
  {
    if user.Some? && user.value.avatar.Some? && user.value.avatar.value != "" then
      user.value.avatar.value
    else
      var e := Uri.EncodeUriComponent(AvatarName(user));
      var url := AvatarPrefix + e + AvatarSuffix;
      assert url[..|AvatarPrefix|] == AvatarPrefix;
      assert url[|AvatarPrefix|..|url| - |AvatarSuffix|] == e;
      assert url[|url| - |AvatarSuffix|..] == AvatarSuffix;
      url
  }

  /** A signed-out visitor, or a user whose avatar is empty, gets a generated
      avatar whose name parameter is exactly `User` or the encoded name, with
      no `&` that could cut the parameter short. */
  lemma GeneratedAvatarName(user: Option<Auth.User>)
    requires user.None? || user.value.avatar.None?
    ensures var url := InitialAvatar(user);
            '&' !in url[|AvatarPrefix|..|url| - |AvatarSuffix|]
    ensures user.None? ==> InitialAvatar(user) == AvatarPrefix + "User" + AvatarSuffix
  {
    Auth.AvatarNameIsOneParameter(AvatarName(user));
    if user.None? {
      Uri.EncodeIdentity("User");
    }
  }

  // ---------------------------------------------------------------------
  // Change-password form
  // ---------------------------------------------------------------------

  /** The messages of the `newPassword` field: required, at least 8 long. */
  function ValidateNewPassword(v: string): (errors: seq<string>)
    ensures errors == [] <==> |v| >= 8
    ensures v == "" ==> errors == ["Please enter your new password"]
    ensures 0 < |v| < 8 ==> errors == ["Password must be at least 8 characters"]
  {
    var required := if v == "" then ["Please enter your new password"] else [];
    var minLength := if v != "" && |v| < 8 then ["Password must be at least 8 characters"] else [];
    required + minLength
  }

  /** The custom validator of `confirmPassword`: an empty value is left to
      the `required` rule, otherwise it must equal the new password. */
  function ConfirmValidator(newPassword: string, v: string): (r: Result<()>)
    ensures r.Ok? <==> v == "" || v == newPassword
    ensures r.Err? ==> r.error == "The two passwords do not match"
  {
    if v == "" || newPassword == v then Ok(()) else Err("The two passwords do not match")
  }

  /** The messages of the `confirmPassword` field: required, then the
      validator above. */
  function ValidateConfirm(newPassword: string, v: string): (errors: seq<string>)
    ensures errors == [] <==> v != "" && v == newPassword
    ensures |errors| <= 1
  {
    var required := if v == "" then ["Please confirm your new password"] else [];
    var custom := match ConfirmValidator(newPassword, v)
                  case Ok(_) => []
                  case Err(m) => [m];
    required + custom
  }

  /** The password form passes exactly when the new password has at least 8
      characters and is typed identically twice. */
  lemma PasswordFormAccepts(newPassword: string, confirm: string)
    ensures ValidateNewPassword(newPassword) + ValidateConfirm(newPassword, confirm) == []
            <==> |newPassword| >= 8 && confirm == newPassword
  {
    if ValidateNewPassword(newPassword) + ValidateConfirm(newPassword, confirm) == [] {
      assert |ValidateNewPassword(newPassword) + ValidateConfirm(newPassword, confirm)| == 0;
    }
  }
}
