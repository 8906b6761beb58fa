/** The records the backend passes around: the Telegram user taken from
    initData, the parsed initData envelope, and a row of the `users` table.
    Optional JavaScript properties are `Option`s; `null` columns too.
    Timestamps are milliseconds since the epoch. */
module Telegram {
  import opened Wrappers

  /** A Telegram WebApp user, as decoded from the `user` parameter. */
  datatype TelegramUser = TelegramUser(
    id: int,
    firstName: string,
    lastName: Option<string>,
    username: Option<string>,
    languageCode: Option<string>,
    isPremium: Option<bool>,
    photoUrl: Option<string>)

  /** The parsed initData envelope. `user` is `None` when the `user`
      parameter decoded to a falsy JSON value (`null`, `false`, `0`, `""`);
      `authDate` is `None` for NaN. */
  datatype ParsedInitData = ParsedInitData(
    user: Option<TelegramUser>,
    authDate: Option<int>,
    hash: string,
    queryId: Option<string>,
    chatInstance: Option<string>,
    chatType: Option<string>,
    startParam: Option<string>)

  /** A row of the `users` table. */
  datatype DbUser = DbUser(
    telegramId: int,
    username: Option<string>,
    firstName: string,
    lastName: Option<string>,
    languageCode: string,
    isPremium: bool,
    role: string,
    createdAt: int,
    updatedAt: int,
    lastLogin: int,
    photoUrl: Option<string>,
    referrerId: Option<int>,
    referralCode: string)
}
