// Bytes, 32-byte keys and account addresses.
module Keys {

  type Byte = x: int | 0 <= x < 256

  type Key32 = s: seq<Byte> | |s| == 32 witness seq(32, i => 0)

  const ZERO_KEY: Key32 :=
    [0, 0, 0, 0, 0, 0, 0, 0, 0, 0, 0, 0, 0, 0, 0, 0, 0, 0, 0, 0, 0, 0, 0, 0, 0, 0, 0, 0, 0, 0, 0, 0]

  // An address derived by the vault program is an injective function of its
  // seeds, and nobody can sign for it; every other address is a wallet's.
  datatype Address =
    | Wallet(key: Key32)
    | VaultPda(authority: Address)
    | DepositPda(vault: Address, stealth: Key32, ephemeral: Key32)
    | EscrowPda(deposit: Address)

  type Signer = a: Address | a.Wallet? witness Wallet(ZERO_KEY)

  // `Pubkey::default()`: the mint recorded on a deposit of lamports.
  const DEFAULT_KEY: Address := Wallet(ZERO_KEY)
}
